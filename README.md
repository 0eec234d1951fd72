# ascii-engine core, modelled in Dafny

This project models the logic of a terminal ASCII game engine and proves properties of that model. The engine draws *models* (sprites with hitboxes and animations) into a frame string and prints that string to the terminal. The repository keeps three generations of the same ideas side by side, and all three are modelled:

- **The old object screen** (`src/objects`, `src/screen/screen_data.rs`, `src/screen/pixel*.rs`, `src/screen/objects.rs`, `src/screen/object_screen_data.rs`, `src/general_data`). Objects are skins with a list of hitbox offsets. The screen is a grid of pixels, and each pixel records every object covering it:
  - objects are grouped by name in a `BTreeMap`, so the first name is the least in `String` order;
  - within a name, objects are keyed by number;
  - an assignment says which object the pixel shows.
- **The intermediate models engine** (`src/models`, `src/screen/models.rs`). It has:
  - animation frame sets, a looping frame iterator and an animator queue;
  - the request handler of the animation thread;
  - the older `.model` file parser;
  - a model registry keyed by hash, with a strata index.
- **The current crate and screen** (`engine_math`, `model_data_structures`, `src/screen/model_storage.rs`, `src/screen/model_manager.rs`, `src/screen/printer.rs`). It has:
  - coordinates and rectangles;
  - sprites with one anchor character and an air (transparent) character;
  - hitboxes placed relative to the sprite's anchor;
  - frame durations counted in ticks, and a name-queue animator;
  - the `.model` file parser, a section state machine over lines whose errors carry 1-based line numbers;
  - the model storage: models by hash, plus strata 0 to 100 each holding a set of hashes;
  - the model manager's movement and collision query;
  - the printer, which paints the stored models strata by strata onto a blank frame.

The frame is `GRID_HEIGHT` (40) rows of `GRID_WIDTH` (175) cells. Every row but the last is followed by a newline, so the cell in column x of row y sits at index x + 176 * y. These constants and the empty pixel `" "` are the configuration defaults; the old screen uses its own constants 175, 40 and `"O"`.

Values the source copies (`Clone`/`Eq` structs such as sprites, hitboxes and frame sets) are Dafny datatypes; their setters are functions that return the new value or the error. Entities whose fields the source updates in place are classes with `modifies` frames:
- the registries, the pixel and the animators;
- the frame iterators, the counters and the collision chain.

Loops in the source are `while` loops here, proved against specification functions:
- the parser's line loop;
- the registries' strata scans;
- the printer's painting loops;
- the collision scan;
- the coordinate walk.

Where a doc comment and the code disagree, the model follows the code. `current_frame_duration_is_finished` (src/models/animation.rs:193-202) is documented to return false when nothing runs, but it returns true, and the source's own unit test `no_running_animation` (lines 909-916) asserts true; `OldModelAnimation.ModelAnimatorData.CurrentFrameDurationIsFinished` returns true.

`get_frame_based_on_ticks` is both: a function state machine specifies it and a method runs the source's loop. The older sprite's `change_air_character` and `change_anchor_replacement_character` (model_data_structures/src/models/sprites.rs:93-110) are the same code as the newer sprite's, and the model uses `Sprites.ChangeAirCharacter` and `Sprites.ChangeAnchorReplacementCharacter` for both.

Several parts of the source are not visible, so the model stands in for them:
- `Rectangle::get_string_dimensions` delegates to a printer crate that is not part of this model. It is given the rule of `valid_rectangle_check` in src/objects/hitboxes.rs:105-120: every line, split at `'\n'`, has the first line's length; the empty string has no dimensions.
- The model record `ModelData` has no visible source. It is a record of what its callers read: hash, name, strata, frame position, sprite, hitbox and animations.
- `Rectangle::is_colliding` and `calculate_top_left_index_from` are not visible either. They are parameters of the members that use them.

## Model

| member | source | states |
|---|---|---|
| EngineCoordinates.IndexToCoordinates | engine_math/src/coordinates.rs:31-33 | the column is below the width and column + width * row gives back the index |
| EngineCoordinates.CoordinatesToIndex | engine_math/src/coordinates.rs:37-39 | the index is at least the column, and equals it on row 0 |
| EngineCoordinates.Add | engine_math/src/coordinates.rs:41-43 | the componentwise sum is at least the left operand in both components |
| EngineCoordinates.UsizeToIsize | engine_math/src/coordinates.rs:47-48 | a `usize as isize` cast lands in the isize range and is either the value or the value less 2^64 |
| EngineCoordinates.IsizeToUsize | engine_math/src/coordinates.rs:57 | an `isize as usize` cast lands in the usize range and is either the value or the value plus 2^64 |
| EngineCoordinates.ToIsize | engine_math/src/coordinates.rs:52-54 | both components land in the isize range |
| EngineCoordinates.FromIsize | engine_math/src/coordinates.rs:56-58 | both components land in the usize range |
| EngineCoordinates.Subtract | engine_math/src/coordinates.rs:45-50 | each component is the plain difference whenever both operands are below 2^63 |
| EngineCoordinates.IndexRoundTrip | engine_math/src/coordinates.rs:31-39 | index to coordinates to index is the identity for every index and positive width |
| EngineCoordinates.CoordinatesRoundTrip | engine_math/src/coordinates.rs:31-39 | coordinates to index to coordinates is the identity whenever the column lies inside the width |
| EngineCoordinates.ColumnOutsideGridDoesNotRoundTrip | engine_math/src/coordinates.rs:31-39 | a column past the width comes back as a different cell: (3, 0) on width 2 returns as (1, 1) |
| EngineCoordinates.IsizeRoundTrip | engine_math/src/coordinates.rs:52-58 | `from_isize` undoes `to_isize` for every usize pair, wrap-around included |
| EngineCoordinates.AddThenSubtract | engine_math/src/coordinates.rs:41-50 | subtracting an offset after adding it gives back the start, while the sum stays below 2^63 |
| EngineCoordinates.TestValues | engine_math/src/coordinates.rs:65-87 | (1, 1) + (1, 1) is (2, 2) and (1, 1) - (1, 1) is (0, 0) |
| EngineRectangle.New | engine_math/src/rectangle.rs:11-16 | the rectangle holds the width and the height it was given |
| EngineRectangle.Area | engine_math/src/rectangle.rs:31-33 | as written, the sum of the two sides, not the number of cells |
| EngineRectangle.FromU16Pair | engine_math/src/rectangle.rs:41-47 | both u16 components are widened unchanged into the width and the height |
| EngineRectangle.RectangularDimensions | engine_math/src/rectangle.rs:26 | stand-in for the printer's dimensions rule: a result exactly when the string is non-empty and all its rows have the same length, and then (row length, row count) |
| EngineRectangle.GetStringDimensions | engine_math/src/rectangle.rs:23-29 | None exactly when the dimensions rule fails, otherwise the rectangle of those dimensions |
| EngineRectangle.ValidRectangleIff | engine_math/src/rectangle.rs:18-21 | a string is a valid rectangle exactly when it is non-empty and its rows all have the same length |
| EngineRectangle.DimensionsCoverShape | engine_math/src/rectangle.rs:23-29 | width times height of a valid shape is the number of its non-newline characters |
| EngineRectangle.TestValues | engine_math/src/rectangle.rs:58-88 | a 2x2 rectangle accepts indices 3 and 0 and rejects 4; the default rectangle accepts 0 |
| EngineRectangle.IndexIsValidIff | engine_math/src/rectangle.rs:31-38 | as written, the valid indices are exactly those below width + height, plus index 0 |
| EngineRectangle.SumAreaOnThreeByThree | engine_math/src/rectangle.rs:31-38 | as written, a 3x3 rectangle rejects its own cells 6 to 8 |
| EngineRectangle.IndexIsInsideIff | engine_math/src/rectangle.rs:35-38 | with the area taken as width * height, an index is accepted exactly when it is 0 or its row index / width is a row of the rectangle |
| EngineRectangle.CellIsInside | engine_math/src/rectangle.rs:35-38 | with the area taken as width * height, the index of every cell (column, row) is accepted |
| EngineRectangle.CellCountOnThreeByThree | engine_math/src/rectangle.rs:58-88 | the corrected check keeps the unit tests' answers and accepts index 8 of a 3x3 rectangle but not 9 |
| GeneralCoordinates.GetCoordinatesInBetween | src/general_data/coordinates.rs:48-65 | the result has (width * height) cells, step k is column k % width and row k / width of the rectangle, and it starts on the top left corner and ends on the bottom right one |
| GeneralCoordinates.WalkCovers | src/general_data/coordinates.rs:48-65 | every step of the row-major walk stays inside the rectangle, and each cell of the rectangle is visited by step (row * width + column) |
| GeneralCoordinates.InBetweenIsTheRectangle | src/general_data/coordinates.rs:48-65 | a cell is in the walk exactly when it lies between the two corners in both coordinates |
| GeneralCoordinates.SquareWalk | src/general_data/coordinates.rs:48-65 | the 2 by 2 square from (1, 1) comes out as (1, 1), (2, 1), (1, 2), (2, 2) |
| FixedWidthCoordinates.CoordinatesToIndex | src/general_data/Coordinates.rs:15-17 | for a column inside the grid width, the index divides back into that row and modulo gives back the column |
| FixedWidthCoordinates.IndexToCoordinatesAsWritten | src/general_data/Coordinates.rs:11-13 | as written, the first component is the row and the second the column: second + GRID_WIDTH * first is the index |
| FixedWidthCoordinates.AsWrittenDoesNotRoundTrip | src/general_data/Coordinates.rs:11-17 | index 1 converts to (0, 1), which converts back to index 175 |
| FixedWidthCoordinates.AsWrittenComposition | src/general_data/Coordinates.rs:11-17 | as written, the round trip takes i to i / GRID_WIDTH + GRID_WIDTH * (i % GRID_WIDTH), which is i exactly when row and column are equal |
| FixedWidthCoordinates.IndexToCoordinates | src/general_data/Coordinates.rs:11-13 | corrected to (x, y): the column is below the grid width and converts back to the index |
| FixedWidthCoordinates.CoordinatesRoundTrip | src/general_data/Coordinates.rs:11-17 | for the corrected order, coordinates to index to coordinates is the identity on every column inside the grid width |
| AnimationFrames.New | model_data_structures/src/models/animation/animation_frames.rs:30-41 | the frames, loop count and resting appearance are stored as given and the animation starts out running |
| AnimationFrames.GetFrame | model_data_structures/src/models/animation/animation_frames.rs:43-45 | a frame comes back exactly when the index is below the frame count, and it is the frame at that index |
| AnimationFrames.FrameCount | model_data_structures/src/models/animation/animation_frames.rs:47-49 | `get_frame` finds a frame exactly at the indices below the count |
| AnimationFrames.ReachedLoopCount | model_data_structures/src/models/animation/animation_frames.rs:51-55 | reached exactly when the loop count is `Limited` and equals the whole loops in the frames iterated through |
| AnimationFrames.LoopCountReachedIff | model_data_structures/src/models/animation/animation_frames.rs:153-159 | a loop count is reached exactly when it is `Limited` and equals the counter; `Forever` is never reached |
| AnimationFrames.Pause | model_data_structures/src/models/animation/animation_frames.rs:65-67 | the result is not running and differs from the input in nothing else |
| AnimationFrames.Start | model_data_structures/src/models/animation/animation_frames.rs:69-71 | the result is running and differs from the input in nothing else |
| AnimationFrames.GetCycleDuration | model_data_structures/src/models/animation/animation_frames.rs:92-99 | one cycle lasts at least as long as each of its frames (it is the sum of their durations) |
| AnimationFrames.GetTotalDuration | model_data_structures/src/models/animation/animation_frames.rs:81-90 | none exactly for a `Forever` animation, otherwise the cycle duration times the loop count |
| AnimationFrames.FrameAt | model_data_structures/src/models/animation/animation_frames.rs:118-130 | a tick inside the cycle names one of the frames |
| AnimationFrames.FrameAtWindow | model_data_structures/src/models/animation/animation_frames.rs:101-133 | the frame a tick names is the one whose window of ticks, from its start to its start plus its duration, holds that tick |
| AnimationFrames.FrameBasedOnTicks | model_data_structures/src/models/animation/animation_frames.rs:101-117 | no frame exactly when the animation has a total duration and the ticks have reached it |
| AnimationFrames.GetFrameBasedOnTicks | model_data_structures/src/models/animation/animation_frames.rs:111-133 | walking the frames and spending each duration from the remaining ticks finds the same frame as the window definition |
| AnimationFrames.FromPairs | model_data_structures/src/models/animation/animation_frames.rs:162-172 | the frames are the pairs in order, each pair's sprite with its duration, and the animation runs with the given loop count and resting appearance |
| AnimationFrames.PairsToFrames | model_data_structures/src/models/animation/animation_frames.rs:165-168 | one frame per pair, in order, each made of the pair's sprite and duration |
| AnimationFrames.DurationValues | model_data_structures/src/models/animation/animation_frames.rs:226-239 | three one-tick frames last 3 ticks per cycle, 6 in total when looping twice and no total when looping forever |
| AnimationFrames.LimitedRuntime | model_data_structures/src/models/animation/animation_frames.rs:245-265 | looping twice, ticks 3, 4 and 5 show frames 0, 1 and 2 and tick 6 shows nothing |
| AnimationFrames.UnlimitedRuntime | model_data_structures/src/models/animation/animation_frames.rs:267-291 | looping forever, ticks 30 to 33 show frames 0, 1, 2 and 0 again |
| AnimationFramesIterators.AnimationFramesIntoIter.IntoIter | model_data_structures/src/models/animation/animation_frames_iterators.rs:9-19 | the iterator owns the animation and its counter starts at 0 |
| AnimationFramesIterators.AnimationFramesIntoIter.FrameAtCounter | model_data_structures/src/models/animation/animation_frames_iterators.rs:29-31 | the frame picked by the counter modulo the frame count is one of the animation's frames |
| AnimationFramesIterators.AnimationFramesIntoIter.Next | model_data_structures/src/models/animation/animation_frames_iterators.rs:24-36 | once the loop count is reached, nothing and the counter stays; before that, the frame at the counter and the counter goes up by one; the animation never changes |
| AnimationFramesIterators.AnimationFramesIntoIter.CurrentFrameDuration | model_data_structures/src/models/animation/animation_frames_iterators.rs:40-47 | the duration of the frame the counter points at, always present |
| AnimationFramesIterators.AnimationFramesIntoIter.GetCurrentFrame | model_data_structures/src/models/animation/animation_frames_iterators.rs:49-54 | the frame the counter points at, as `next` would hand it out, without advancing |
| AnimationFramesIterators.LimitedLoopsEndAfterAllFrames | model_data_structures/src/models/animation/animation_frames_iterators.rs:24-27 | with a limited loop count m and n frames, the iterator first refuses at exactly m times n frames handed out |
| AnimationFramesIterators.ExhaustedStaysExhausted | model_data_structures/src/models/animation/animation_frames_iterators.rs:24-27 | an exhausted iterator keeps returning nothing |
| AnimationFramesIterators.IterLogic | model_data_structures/src/models/animation/animation_frames_iterators.rs:62-81 | three frames looping twice come out as the three frames twice, then nothing |
| ModelAnimator.Retain | model_data_structures/src/models/animation/model_animator.rs:75-77 | keeps exactly the queued names that are in the list, each as often as it is queued: every kept name is queued and listed, and every queued name that is listed is kept |
| ModelAnimator.RetainAppend | model_data_structures/src/models/animation/model_animator.rs:75-77 | filtering a queue split in two is filtering each part and joining them, so the kept names stay in queue order |
| ModelAnimator.RetainIdempotent | model_data_structures/src/models/animation/model_animator.rs:75-77 | filtering a filtered queue again changes nothing |
| ModelAnimator.LastExisting | model_data_structures/src/models/animation/model_animator.rs:158-163 | the rearmost queued name that is in the list, or none exactly when no queued name is |
| ModelAnimator.ModelAnimator.Default | model_data_structures/src/models/animation/model_animator.rs:14-24 | an empty queue, no start and no last run animation |
| ModelAnimator.ModelAnimator.GetCurrentAnimation | model_data_structures/src/models/animation/model_animator.rs:141-144 | the front of the queue, and none exactly when there is nothing to run |
| ModelAnimator.ModelAnimator.HasAnimationsToRun | model_data_structures/src/models/animation/model_animator.rs:60-62 | true exactly while the queue is not empty |
| ModelAnimator.ModelAnimator.RestartAnimationStart | model_data_structures/src/models/animation/model_animator.rs:181-190 | a start at `now` exactly while something is queued, none otherwise; queue and last run animation unchanged |
| ModelAnimator.ModelAnimator.OverwriteCurrentAnimation | model_data_structures/src/models/animation/model_animator.rs:80-89 | the old front, if any, is dropped and becomes the last run animation, the new name goes to the back and the start is `now` |
| ModelAnimator.ModelAnimator.StepAnimationQueue | model_data_structures/src/models/animation/model_animator.rs:91-111 | the front is popped and becomes the last run animation only if it is in the list; the start is `now` while something is still queued and none once the queue is empty |
| ModelAnimator.ModelAnimator.RemoveMissingAnimationsFromQueue | model_data_structures/src/models/animation/model_animator.rs:64-78 | the queue keeps exactly its names that are in the list, in order; a missing running animation is stepped past first, restarting or dropping the start |
| ModelAnimator.ModelAnimator.ClearQueue | model_data_structures/src/models/animation/model_animator.rs:156-169 | the queue is left as it was, the last run animation becomes the rearmost queued name in the list (if there is one), and the start is dropped |
| ModelAnimator.ModelAnimator.AddNewAnimationToQueue | model_data_structures/src/models/animation/model_animator.rs:171-179 | the name joins the back of the queue; on an empty queue it starts at `now`, otherwise the running start is kept; a start still matches the queue afterwards |
| ModelAnimator.ExistingQueue | model_data_structures/src/models/animation/model_animator.rs:349-389 | three names queued and stepped through three times leave nothing queued, no start, and the third name as the last run animation |
| ModelAnimator.StepEmpty | model_data_structures/src/models/animation/model_animator.rs:411-421 | stepping an empty animator leaves it empty, with no start and no last run animation |
| ModelAnimator.CleanAnimationQueue | model_data_structures/src/models/animation/model_animator.rs:635-659 | with two queued animations, removing the first from the list leaves only the second queued, and removing both leaves none |
| AnimationData.ListToMap | model_data_structures/src/models/animation.rs:161-162 | every name of the list is a key of the map and no other name is |
| AnimationData.LastPairWins | model_data_structures/src/models/animation.rs:161-162 | a name that no later pair repeats maps to the frames of its last pair |
| AnimationData.ModelAnimationData.Default | model_data_structures/src/models/animation.rs:33-44 | no animations and a fresh animator with an empty queue, nothing running and nothing run before |
| AnimationData.ModelAnimationData.From | model_data_structures/src/models/animation.rs:47-52 | the list becomes the animation map and the animator starts as the default one; the model is not used |
| AnimationData.ModelAnimationData.ContainsAnimation | model_data_structures/src/models/animation.rs:96-99 | true exactly when `get_animation` finds the name |
| AnimationData.ModelAnimationData.GetAnimation | model_data_structures/src/models/animation.rs:127-132 | the frames stored under the name, or none exactly when the name is absent |
| AnimationData.ModelAnimationData.RemoveAnimationFromList | model_data_structures/src/models/animation.rs:101-106 | returns what was stored under the name, and the name is gone from the list; the animator is untouched |
| AnimationData.ModelAnimationData.AddNewAnimationToList | model_data_structures/src/models/animation.rs:108-125 | fails with `AnimationAlreadyExists` exactly when the name is taken, leaving the list as it was; otherwise the name maps to the new frames |
| AnimationData.AddTwiceThenRemove | model_data_structures/src/models/animation.rs:96-125 | an added animation is contained, adding it again is refused, and removing it gives it back and leaves it not contained |
| AnimationData.FromOnePair | model_data_structures/src/models/animation.rs:157-170 | a one-pair list gives the one-entry map |
| ModelAppearance.ModelAppearance.constructor | model_data_structures/src/models/model_appearance.rs:19-24 | stores the default sprite and the animation data as given |
| ModelAppearance.ModelAppearance.AddAnimationData | model_data_structures/src/models/model_appearance.rs:26-32 | the new data replaces the stored data, which is returned; the default sprite is kept |
| ModelAppearance.ModelAppearance.GetAppearance | model_data_structures/src/models/model_appearance.rs:34-42 | the animated sprite when there is animation data and it yields one, else the default sprite |
| ModelAppearance.ModelAppearance.GetDefaultAppearance | model_data_structures/src/models/model_appearance.rs:44-49 | the default sprite, whatever any animation is doing |
| ModelAppearance.ModelAppearance.UpdateDefaultSprite | model_data_structures/src/models/model_appearance.rs:51-59 | the new sprite replaces the default one, which is returned; the animation data is kept |
| ModelAppearance.ModelAppearance.GetMutAnimationData | model_data_structures/src/models/model_appearance.rs:158-167 | the stored animation data, or fresh empty data that is stored first when there was none |
| ModelAppearance.ModelAppearance.FullValidityCheck | model_data_structures/src/models/model_appearance.rs:113-156 | always accepted without animation data; with it, accepted exactly when no animation failed and the default sprite is valid, and otherwise the error lists the animations' failures followed by the default sprite's |
| ModelAppearance.DefaultSpriteFailure | model_data_structures/src/models/model_appearance.rs:138-148 | no entry exactly when the default sprite passes its validity check, else one entry named "Default Sprite" holding that sprite's errors as frame 0 |
| ModelAppearance.NoDataAcceptsInvalidSprite | model_data_structures/src/models/model_appearance.rs:124-155 | without animation data, a sprite that breaks the sprite rules is still accepted |
| ModelAppearance.ModelAppearance.RemoveAnimationFromList | model_data_structures/src/models/model_appearance.rs:93-98 | the stored frames of the name are returned and the name removed; a model without animation data gains empty data and nothing is returned; the default sprite is kept |
| Sprites.CalculateAnchorIndex | model_data_structures/src/models/model_appearance/sprites.rs:171-200 | success exactly when the newline-free shape holds the anchor once, and then the index is that one position; `NoAnchor` exactly when it holds none; otherwise `MultipleAnchorsFound` with every position |
| Sprites.ChangeShape | model_data_structures/src/models/model_appearance/sprites.rs:56-96 | a non-rectangular shape is `NonRectangularShape`; an anchor (new, or else stored) equal to air is `SpriteAnchorMatchesAirCharacter`; an anchor error is passed on; otherwise shape, anchor, replacement and index change together and the sprite is consistent |
| Sprites.ChangeAnchorCharacter | model_data_structures/src/models/model_appearance/sprites.rs:98-115 | refused with `ModelSpriteContainsNewAnchorCharacter` exactly when the shape already holds the new character; otherwise every old anchor in the shape becomes the new one and nothing else changes |
| Sprites.ChangeAirCharacter | model_data_structures/src/models/model_appearance/sprites.rs:117-133 | refused with `SpriteAnchorMatchesAirCharacter` exactly when the new air character is the anchor; otherwise only the air character changes |
| Sprites.ChangeAnchorReplacementCharacter | model_data_structures/src/models/model_appearance/sprites.rs:135-142 | only the replacement character changes |
| Sprites.New | model_data_structures/src/models/model_appearance/sprites.rs:37-54 | succeeds exactly when the shape is rectangular, the anchor is not the default air character `-`, the newline-free shape holds the anchor once and the air character is not the anchor; the first of these rules broken gives its error, in that order (`NonRectangularShape`, `SpriteAnchorMatchesAirCharacter`, the anchor-index error, `SpriteAnchorMatchesAirCharacter`); a sprite it returns has the shape and characters given and is consistent |
| Sprites.GetAppearance | model_data_structures/src/models/model_appearance/sprites.rs:161-169 | the shape with each anchor drawn as the replacement character and every other character kept; no anchor is left when the two differ |
| Sprites.GetDimensions | model_data_structures/src/models/model_appearance/sprites.rs:233-239 | the width of the first row and the number of rows |
| Sprites.GetAnchorAsCoordinates | model_data_structures/src/models/model_appearance/sprites.rs:149-159 | a column inside the width and a row that together give back the stored anchor index |
| Sprites.ValidityCheck | model_data_structures/src/models/model_appearance/sprites.rs:202-231 | passes exactly when the shape is rectangular, holds one anchor and the anchor is not air; otherwise every failed rule is listed |
| Sprites.ConsistentIsValid | model_data_structures/src/models/model_appearance/sprites.rs:202-231 | every sprite the setters build passes the validity check |
| Sprites.ChangeAnchorKeepsConsistent | model_data_structures/src/models/model_appearance/sprites.rs:104-115 | renaming the anchor to a character that is neither air nor a newline keeps the sprite consistent |
| Sprites.ChangeAirKeepsConsistent | model_data_structures/src/models/model_appearance/sprites.rs:125-133 | a successful air change keeps the sprite consistent |
| Sprites.ChangeAnchorToAirBreaksValidity | model_data_structures/src/models/model_appearance/sprites.rs:104-115 | `change_anchor_character` accepts the air character as the new anchor, and the sprite it leaves fails its own validity check |
| Sprites.CalculateAnchorIndexErrors | model_data_structures/src/models/model_appearance/sprites.rs:362-377 | no anchor in "---" is `NoAnchor`, and "x-x" is `MultipleAnchorsFound([0, 2])` |
| Sprites.CalculateAnchorIndexFound | model_data_structures/src/models/model_appearance/sprites.rs:379-389 | the anchor of "---\n-x-" is at position 4, newlines not counted |
| Sprites.ChangeShapeNonRectangular | model_data_structures/src/models/model_appearance/sprites.rs:273-283 | the default sprite refuses the shape "a\n-sd" as non-rectangular |
| Sprites.ChangeShapeAnchorIsAir | model_data_structures/src/models/model_appearance/sprites.rs:285-296 | the default sprite refuses '-' as anchor, because '-' is its air character |
| Sprites.TwoRowRectangle | model_data_structures/src/models/model_appearance/sprites.rs:68 | a two-row shape is rectangular exactly when its rows have one length, and then it is that length by 2 |
| Sprites.NewTwoRowSprite | model_data_structures/src/models/model_appearance/sprites.rs:37-54 | a two-row rectangle whose joined rows hold the anchor once builds the sprite with that index |
| Sprites.TestSprite | model_data_structures/src/models/model_appearance/sprites.rs:298-300 | "-x-" above "-a-" with anchor 'a' builds, with anchor index 4 |
| Sprites.TestSpriteAnchor | model_data_structures/src/models/model_appearance/sprites.rs:348-360 | that sprite is 3 wide and its anchor is at column 1, row 1 |
| Sprites.TwoRowAppearance | model_data_structures/src/models/model_appearance/sprites.rs:164-169 | a two-row sprite is drawn row by row |
| Sprites.TestSpriteAppearance | model_data_structures/src/models/model_appearance/sprites.rs:332-346 | the test sprite is drawn with its anchor as '-' |
| Sprites.TestSpriteAppearanceX | model_data_structures/src/models/model_appearance/sprites.rs:332-346 | with the replacement changed to 'x' the anchor is drawn as 'x' |
| Sprites.TestSpriteRefusals | model_data_structures/src/models/model_appearance/sprites.rs:298-330 | the test sprite refuses 'x' as new anchor (it is in the shape) and 'a' as air (it is the anchor) |
| Sprites.ValidityCheckAllErrors | model_data_structures/src/models/model_appearance/sprites.rs:391-404 | the junk sprite "x-x\naa" with everything 'a' reports non-rectangular, anchors at 3 and 4, and anchor equal to air, in that order |
| Sprites.TwoRowAllChecksFail | model_data_structures/src/models/model_appearance/sprites.rs:211-231 | a ragged two-row shape with several anchors and the anchor equal to air fails all three checks in order |
| Sprites.AllChecksFail | model_data_structures/src/models/model_appearance/sprites.rs:211-231 | a sprite failing all three rules gets all three errors, in rule order |
| OldSprites.New | model_data_structures/src/models/sprites.rs:16-33 | the default sprite: empty shape, anchor 'a', replacement ' ', air '-', index 0 |
| OldSprites.CalculateAnchorIndex | model_data_structures/src/models/sprites.rs:112-140 | success exactly when the shape, newlines included, holds the anchor once, at that position; `NoAnchor` exactly when it holds none; otherwise `MultipleAnchorsFound` with every position |
| OldSprites.ChangeShape | model_data_structures/src/models/sprites.rs:35-63 | a non-rectangular shape and an anchor equal to air are refused as in the newer sprite, but the index is looked up for the STORED anchor while the new anchor is stored; when that lookup fails, its error is returned and the sprite is left as it was |
| OldSprites.ChangeAnchorCharacter | model_data_structures/src/models/sprites.rs:65-83 | refused exactly when the shape already holds the new character; otherwise only the anchor character changes and the shape stays as it was |
| OldSprites.ChangeShapeUsesStoredAnchor | model_data_structures/src/models/sprites.rs:50-60 | on the default sprite, the shape "x" with new anchor 'x' is refused with `NoAnchor` |
| OldSprites.ChangeShapeFindsNewAnchor | model_data_structures/src/models/sprites.rs:35-40 | the newer `change_shape` accepts the same call and puts the anchor at index 0 |
| OldSprites.AnchorIndexCountsNewlines | model_data_structures/src/models/sprites.rs:112-125 | in "---\n-x-" the old index of 'x' is 5, counting the newline the documentation says is not counted; the newer index is 4 |
| OldSprites.ChangeAnchorLosesAnchor | model_data_structures/src/models/sprites.rs:65-83 | renaming the anchor of the consistent sprite "a" to 'x' succeeds but leaves a shape without the new anchor, while the newer rename keeps the sprite consistent |
| Hitboxes.NewCreationData | model_data_structures/src/models/hitboxes.rs:29-35 | stores the dimensions and anchor index unchecked |
| Hitboxes.AssignAnchorIndex | model_data_structures/src/models/hitboxes.rs:37-45 | refused with `IndexLargerThanHitboxArea` exactly when `index_is_valid` (area x + y) refuses the new index for the stored dimensions; otherwise only the index changes |
| Hitboxes.AssignDimensions | model_data_structures/src/models/hitboxes.rs:47-55 | refused with `IndexLargerThanHitboxArea` exactly when `index_is_valid` refuses the stored index for the new dimensions; otherwise only the dimensions change |
| Hitboxes.SkinTopLeftToHitboxTopLeft | model_data_structures/src/models/hitboxes.rs:127-139 | in exact arithmetic: the column is the index modulo the width and the row is index / width rounded half away from zero, each minus the skin anchor; a zero width gives the NaN and infinity casts |
| Hitboxes.SkinTopLeftToHitboxTopLeftFloor | model_data_structures/src/models/hitboxes.rs:89-109 | the anchor's column lies inside the width, its row is not negative, and column plus width times row gives back the anchor index |
| Hitboxes.RoundedRowMisplacesAnchor | model_data_structures/src/models/hitboxes.rs:132-133 | in a 3-wide hitbox the anchor at index 5 (column 2, row 1) is given row 2 by the rounding, and row 1 by floor division |
| Hitboxes.DocumentedOffset | model_data_structures/src/models/hitboxes.rs:106-125 | the documented example, skin anchor (1, 1) with hitbox anchor 4 in a width of 3, gives (0, 0) under both definitions |
| Hitboxes.CreateEmpty | model_data_structures/src/models/hitboxes.rs:201-214 | an empty hitbox at offset (0, 0), index 0 and default dimensions |
| Hitboxes.GetHitbox | model_data_structures/src/models/hitboxes.rs:69-87 | never fails; empty exactly when `area()`, the sum of the sides, is zero; otherwise keeps the index and dimensions and places the hitbox at the rounded anchor offset |
| Hitboxes.GetHitboxKeepsAnchorFit | model_data_structures/src/models/hitboxes.rs:69-87 | an anchor that passes `index_is_valid` for its creation data still passes it in the hitbox made from it |
| Hitboxes.RoundedRowIff | model_data_structures/src/models/hitboxes.rs:132-133 | the rounded column is the anchor's column; the rounded row is the anchor's own row exactly when the anchor lies in the left half of its row, and the row below otherwise |
| Hitboxes.SettersUseSumArea | model_data_structures/src/models/hitboxes.rs:37-55 | with the sum as area, a 5 by 1 hitbox takes anchor 5, past its last cell, and a 3 by 3 hitbox refuses anchor 7, one of its cells, on both setters of both types |
| Hitboxes.ZeroHeightHitboxIsNotEmpty | model_data_structures/src/models/hitboxes.rs:70-72 | a hitbox 3 wide with no rows is not empty under `area() == 0`, while the corrected hitbox is the empty one |
| Hitboxes.GetCorrectedHitbox | model_data_structures/src/models/hitboxes.rs:69-87 | corrected: empty exactly when there are no cells; otherwise the skin anchor plus the offset is the anchor's own (column, row) of the hitbox |
| Hitboxes.CorrectedAnchorOnARow | model_data_structures/src/models/hitboxes.rs:69-87 | corrected: an anchor inside the cells lies on one of the hitbox's rows |
| Hitboxes.AssignHitboxAnchorIndex | model_data_structures/src/models/hitboxes.rs:216-224 | refused with `IndexLargerThanHitboxArea` exactly when `index_is_valid` refuses the new index; otherwise only the index changes |
| Hitboxes.AssignHitboxDimensions | model_data_structures/src/models/hitboxes.rs:226-234 | refused with `IndexLargerThanHitboxArea` exactly when `index_is_valid` refuses the stored index for the new dimensions; otherwise only the dimensions change |
| Hitboxes.SettersAgree | model_data_structures/src/models/hitboxes.rs:216-234 | a non-empty hitbox and the creation data it came from accept exactly the same new index and the same new dimensions |
| ModelFileParser.LineToParts | model_data_structures/src/models/model_file_parser.rs:381-403 | errors always name the row's line; a row with no `=` fails; a result has a key before the first `=` holding no `=`, with contents taken between single quotes, or between double quotes when no single quote follows; after a `=` it succeeds exactly when a quote of either kind follows |
| ModelFileParser.LineToPartsQuoted | model_data_structures/src/models/model_file_parser.rs:381-403 | a row key='contents' (key without `=`, contents without `'`) splits into exactly that key and contents |
| ModelFileParser.EqualsInsideContents | model_data_structures/src/models/model_file_parser.rs:445-450 | an `=` inside quotes belongs to the contents: name='a=b' gives ("name", "a=b") |
| ModelFileParser.ContentsToChar | model_data_structures/src/models/model_file_parser.rs:345-354 | success exactly when the contents are one byte long (a single ASCII character), giving that character; otherwise the size error at the line |
| ModelFileParser.ParseStrata | model_data_structures/src/models/model_file_parser.rs:298-317 | empty contents are a size error, trimmed contents that are no usize a syntax error, a number outside 0..=100 a range error carrying it, and otherwise the number |
| ModelFileParser.StoreField | model_data_structures/src/models/model_file_parser.rs:269-335 | each one-character field is stored exactly when its contents are one character, the name when non-empty, the strata when it parses in range, the animation path when non-empty and a directory; errors name the line or carry the out-of-range strata |
| ModelFileParser.SkinChecks | model_data_structures/src/models/model_file_parser.rs:258-338 | a malformed row fails, an unknown trimmed lower-cased key is a syntax error at the line, and every error names the line or carries the out-of-range strata |
| ModelFileParser.Finish | model_data_structures/src/models/model_file_parser.rs:242-250 | the appearance becomes the joined appearance rows unless that join is empty, the hitbox becomes the joined hitbox rows always, and nothing else in the builder changes |
| ModelFileParser.ParseRows | model_data_structures/src/models/model_file_parser.rs:186-251 | the loop over the numbered lines fails exactly when the line-by-line state machine fails, with its error, and otherwise yields the finished builder |
| ModelFileParser.PrefixErrorPropagates | model_data_structures/src/models/model_file_parser.rs:192-240 | once a prefix of the lines fails, the whole file fails with that same error |
| ModelFileParser.AppendLine | model_data_structures/src/models/model_file_parser.rs:192-240 | a further line acts as one more step of the state machine, numbered one past the lines before it |
| ModelFileParser.CommentsAreIgnored | model_data_structures/src/models/model_file_parser.rs:218-222 | a line containing `+- ` that is no header or separator changes nothing, in any section |
| ModelFileParser.HeadersOpenSections | model_data_structures/src/models/model_file_parser.rs:203-217 | a `skin`, `appearance` or `hitbox_dimensions` line only opens its section |
| ModelFileParser.AppearanceRowsCollectedInOrder | model_data_structures/src/models/model_file_parser.rs:234 | in the appearance section a plain row is appended to the collected appearance rows |
| ModelFileParser.SkinErrorsNameTheirLine | model_data_structures/src/models/model_file_parser.rs:226-232 | a failing skin row fails the whole parse with a creation error for its own 1-based line number (or the out-of-range strata) |
| ModelFileParser.MissingFields | model_data_structures/src/models/model_file_parser.rs:103-137 | each of the six required names is listed exactly when its field is missing, the list is a subsequence of the six names in the order the source checks them (so each name at most once), and it is empty exactly when all six are present |
| ModelFileParser.MissingCharacters | model_data_structures/src/models/model_file_parser.rs:106-116 | the anchor, anchor replacement and air names are each listed exactly when missing, in that order, and the list is empty exactly when all three are present |
| ModelFileParser.MissingOthers | model_data_structures/src/models/model_file_parser.rs:118-128 | the assigned name, strata and appearance names are each listed exactly when missing, in that order, and the list is empty exactly when all three are present |
| ModelFileParser.CheckIfAllDataExists | model_data_structures/src/models/model_file_parser.rs:103-137 | success exactly when nothing is missing, and otherwise the missing-data error with the missing names |
| ModelFileParser.Parse | model_data_structures/src/models/model_file_parser.rs:146-177 | empty contents are the empty-file error; otherwise a failing line's error is returned; when every line parses, the result succeeds exactly when the finished builder misses no required field, and otherwise is `MissingData` listing the missing fields; a success is that finished builder |
| ModelFileParser.MissingDataOrder | model_data_structures/src/models/model_file_parser.rs:421-442 | an empty builder lists the six required fields in the source's order |
| ModelFileParser.StrataNumber | model_data_structures/src/models/model_file_parser.rs:298-317 | a row of digits is read as its number, accepted up to 100 and refused with that number above |
| ModelFileParser.StrataNotANumber | model_data_structures/src/models/model_file_parser.rs:305-308 | a single character that is no digit, sign or white space is a syntax error at the line |
| ModelFileParser.StrataOutOfRange | model_data_structures/src/models/model_file_parser.rs:466-476 | strata 1000 is refused with the range error carrying 1000 |
| ModelFileParser.StrataMalformed | model_data_structures/src/models/model_file_parser.rs:479-489 | empty strata contents are the size error at line 6 and a letter is the syntax error at line 6 |
| ModelFileParser.StrataAtLimit | model_data_structures/src/models/model_file_parser.rs:310-316 | strata 100 is accepted |
| ModelFileParser.ContentsToCharExamples | model_data_structures/src/models/model_file_parser.rs:345-354 | "a" gives 'a'; "ab", "" and a two-byte character are size errors at the line |
| OldModelFileParser.RowParts | src/models/model_file_parser.rs:222-233 | a row is accepted exactly when it splits on `=` into exactly two pieces and the second holds a single quote; the key is the first piece, the contents hold no `=` or quote, and refusals are syntax errors at the line |
| OldModelFileParser.RowPartsQuoted | src/models/model_file_parser.rs:222-233 | a row key='contents' with no `=` on either side and no quote in the contents splits into that key and contents |
| OldModelFileParser.StoreField | src/models/model_file_parser.rs:235-286 | each one-character field (center, center replacement, air) is stored exactly when its contents are one character; name and strata follow the same rules as the model crate's; errors name the line or carry the out-of-range strata |
| OldModelFileParser.SkinChecks | src/models/model_file_parser.rs:217-289 | a row that fails the split is a syntax error at the line, an unknown key too, and every error names the line or carries the out-of-range strata |
| OldModelFileParser.Finish | src/models/model_file_parser.rs:208-214 | the appearance and the hitbox become the joined rows, even when empty, and nothing else in the builder changes |
| OldModelFileParser.ParseRows | src/models/model_file_parser.rs:136-215 | the loop over the numbered lines fails exactly when the line-by-line state machine fails, with its error, and otherwise yields the finished builder |
| OldModelFileParser.PrefixErrorPropagates | src/models/model_file_parser.rs:142-206 | once a prefix of the lines fails, the whole file fails with that same error |
| OldModelFileParser.MissingFields | src/models/model_file_parser.rs:73-111 | each of the seven required names is listed exactly when its field is missing, the list is a subsequence of the seven names in the order the source checks them (so at most seven), and it is empty exactly when all seven are present |
| OldModelFileParser.MissingCharacters | src/models/model_file_parser.rs:76-86 | the center, center replacement and air names are each listed exactly when missing, in that order |
| OldModelFileParser.MissingIdentity | src/models/model_file_parser.rs:88-94 | the assigned name and strata names are each listed exactly when missing, in that order |
| OldModelFileParser.MissingShapes | src/models/model_file_parser.rs:96-102 | the appearance and hitbox dimensions names are each listed exactly when missing, in that order |
| OldModelFileParser.CheckIfAllDataExists | src/models/model_file_parser.rs:73-111 | success exactly when nothing is missing, and otherwise the missing-data error with the missing names |
| OldModelFileParser.Parse | src/models/model_file_parser.rs:117-134 | empty contents are the empty-file error; otherwise a failing line's error is returned; when every line parses, the result succeeds exactly when the finished builder misses no required field, and otherwise is `MissingData` listing the missing fields; a success is that finished builder |
| OldModelFileParser.ParsedRowsAreNeverMissing | src/models/model_file_parser.rs:208-212 | after the rows are parsed the appearance and the hitbox are never reported missing: only the skin fields can be |
| OldModelFileParser.MissingDataOrder | src/models/model_file_parser.rs:73-111 | an empty builder lists the seven required fields in the source's order |
| OldModelFileParser.EqualsInsideContentsRefused | src/models/model_file_parser.rs:222-226 | name='a=b' is a syntax error here, though the model crate's parser accepts it |
| StoredModels.New | model_data_structures/src/models/stored_models.rs:18-29 | the copy has the model's hash, frame position, name, strata, appearance and hitbox |
| StoredModels.Cmp | model_data_structures/src/models/stored_models.rs:54-58 | `Less` exactly when the first hash is smaller and `Greater` exactly when it is larger |
| StoredModels.PartialCmp | model_data_structures/src/models/stored_models.rs:48-52 | always defined |
| StoredModels.GetHash | model_data_structures/src/models/stored_models.rs:31-33 | the hash, which alone decides equality with any other copy |
| StoredModels.GetName | model_data_structures/src/models/stored_models.rs:35-37 | the stored name |
| StoredModels.EqIffCmpEqual | model_data_structures/src/models/stored_models.rs:31-58 | equality holds exactly when `cmp` is `Equal` and exactly when the hashes agree; `partial_cmp` is `cmp` |
| StoredModels.CmpIsTotalOrder | model_data_structures/src/models/stored_models.rs:54-58 | swapping the arguments reverses the ordering, and `Less` and `Equal` are transitive |
| StoredModels.EqualityIgnoresContents | model_data_structures/src/models/stored_models.rs:40-44 | copies differing in name and position are equal when their hashes are |
| StoredModels.NewKeepsIdentity | model_data_structures/src/models/stored_models.rs:18-44 | copies of two models are equal exactly when the models' hashes are, and a copy keeps its model's hash and name |
| Config.CorrectStrataRange | model_data_structures/src/models/strata.rs:11-14 | a strata is in range exactly when it lies in the documented 0 to 100 |
| ModelStorage.Filed | src/screen/model_storage.rs:147-165 | filing succeeds exactly when the strata already has a set or lies in 0..=100; the key joins that set (a new one otherwise) and every other set is unchanged |
| ModelStorage.Unfiled | src/screen/model_storage.rs:101-105 | the key leaves the strata's set, the set is dropped only when the drop flag is set and it became empty, and every other set is unchanged |
| ModelStorage.InternalModels.New | src/screen/model_storage.rs:26-31 | a new registry holds no models and no strata sets, is valid, and stores every model under its own hash |
| ModelStorage.InternalModels.GetModel | src/screen/model_storage.rs:120-122 | the model exactly when the key is stored |
| ModelStorage.InternalModels.GetStrataKeys | src/screen/model_storage.rs:113-115 | the set exactly when the strata has one |
| ModelStorage.InternalModels.GetModelKeys | src/screen/model_storage.rs:126-128 | exactly the keys that have a model |
| ModelStorage.InternalModels.ModelExistsIffStored | src/screen/model_storage.rs:75-87 | on a valid registry, being filed under the model's own strata is the same as being stored |
| ModelStorage.InternalModels.InsertStrata | src/screen/model_storage.rs:142-166 | a missing model is an error; otherwise the key is filed under the model's strata (on a registry whose keys are the models' hashes, the model's hash), or a strata outside 0..=100 with no set is refused; the models are unchanged |
| ModelStorage.InternalModels.Insert | src/screen/model_storage.rs:38-52 | a hash already stored is refused with nothing changed; otherwise the model is stored and then filed, a strata outside the range being reported after the model was stored; a registry whose keys are the models' hashes stays so |
| ModelStorage.InternalModels.RemoveMentionOf | src/screen/model_storage.rs:97-108 | an unknown key changes nothing; otherwise the model is dropped, and its hash leaves its strata's set (the set dropped once empty) with the model returned, or, when that strata has no set, nothing is returned |
| ModelStorage.InternalModels.UnfiledStaysValid | src/screen/model_storage.rs:97-108 | on a valid registry, dropping a model and unfiling it from its own strata keeps the registry valid |
| ModelStorage.InternalModels.FixModelStrata | src/screen/model_storage.rs:213-236 | an out-of-range new strata is refused and a hash not filed under the old strata is reported missing, with nothing changed; otherwise the hash is unfiled and filed again under its model's current strata |
| ModelStorage.InternalModels.Remove | src/screen/model_storage.rs:61-69 | an unknown key returns nothing; a returned model is the stored one and is gone afterwards; on a valid registry the result is exactly the stored model and the registry stays valid |
| ModelStorage.InternalModels.FixStrataList | src/screen/model_storage.rs:174-205 | the models are unchanged; an error is an out-of-range strata some model has; on success every hash in the sets 0..=100 sits under its model's own strata, every hash filed there before is filed under its model's strata, higher sets only gain correctly filed hashes, no hash is filed that was not filed somewhere before, and an index that was already correct is left as it was |
| ModelStorage.InternalModels.FixOneStrata | src/screen/model_storage.rs:180-201 | one strata's misfiled hashes are all re-filed under their models' stratas, no hash is filed that was not filed before, and a set with nothing misfiled is left alone |
| ModelStorage.InsertTwice | src/screen/model_storage.rs:261-273 | the first insert of a model succeeds and the second is refused as already existing |
| ModelStorage.InsertThenRemove | src/screen/model_storage.rs:276-297 | removing an unknown hash returns nothing, and removing the inserted model returns it |
| ModelStorage.MisplacedStrata | src/screen/model_storage.rs:439-462 | a model filed under strata 0 with another strata of its own is moved to that strata's set, and strata 0's set is gone |
| ModelStorage.FixModelStrataWithoutOldSet | src/screen/model_storage.rs:474-486 | unfiling from a strata that has no set reports the model missing |
| OldModelRegistry.InternalModels.New | src/screen/models.rs:27-32 | a new registry holds no models and no strata sets |
| OldModelRegistry.InternalModels.GetModel | src/screen/models.rs:68-70 | the model exactly when the key is stored |
| OldModelRegistry.InternalModels.GetStrataKeys | src/screen/models.rs:61-63 | the set exactly when the strata has one |
| OldModelRegistry.InternalModels.GetModelKeys | src/screen/models.rs:73-75 | exactly the keys that have a model |
| OldModelRegistry.InternalModels.InsertStrata | src/screen/models.rs:89-112 | a missing model is an error; otherwise the key is filed under the model's strata, or a strata outside 0..=100 with no set is refused; the models are unchanged |
| OldModelRegistry.InternalModels.Insert | src/screen/models.rs:39-56 | a hash already stored is refused with nothing changed; otherwise the model is stored and then filed |
| OldModelRegistry.InternalModels.FixModelStrata | src/screen/models.rs:159-178 | an out-of-range new strata is refused and a hash not in the old set is reported missing, with nothing changed; otherwise the hash leaves the old set, which is kept even when empty, and is filed under its model's strata |
| OldModelRegistry.InternalModels.FixStrataList | src/screen/models.rs:120-151 | the models are unchanged; an error is an out-of-range strata some model has; on success every hash in the sets 0..=100 sits under its model's own strata, every hash filed there before is filed under its model's strata, no hash is filed that was not filed somewhere before, and an already correct index is left as it was |
| OldModelRegistry.InternalModels.FixOneStrata | src/screen/models.rs:126-147 | one strata's misfiled hashes are all re-filed under their models' stratas, no hash is filed that was not filed before, and a set with nothing misfiled is left alone |
| OldModelRegistry.EmptiedSetIsKept | src/screen/models.rs:58-63 | moving a strata's only hash elsewhere leaves that strata with an empty set, so `get_strata_keys` answers with a set although no model is there |
| ObjectRegistry.ObjectList.New | src/screen/objects.rs:17-22 | a new registry holds no objects and no strata sets, and satisfies the registry invariant |
| ObjectRegistry.ObjectList.GetObject | src/screen/objects.rs:51-53 | the object exactly when the key is stored |
| ObjectRegistry.ObjectList.GetStrataKeys | src/screen/objects.rs:44-46 | the set exactly when the strata has one |
| ObjectRegistry.ObjectList.GetObjectKeys | src/screen/objects.rs:55-57 | exactly the keys that have an object |
| ObjectRegistry.ObjectList.InsertStrata | src/screen/objects.rs:85-112 | a missing key is an error; otherwise the object's own hash is filed under its strata, or a strata outside 0..=100 with no set is refused; the objects are unchanged |
| ObjectRegistry.ObjectList.Insert | src/screen/objects.rs:24-39 | a key in use is refused with nothing changed; otherwise the object is stored and then filed, staying stored when filing fails; inserting an object under its own hash with a strata in range keeps the registry invariant |
| ObjectRegistry.ObjectList.ChangeObjectStrata | src/screen/objects.rs:63-83 | an out-of-range strata is refused, and an object not filed under its own strata is reported missing, with nothing changed; otherwise its key leaves its own strata's set and its hash is filed there again |
| ObjectRegistry.ObjectList.FixStrataList | src/screen/objects.rs:114-140 | only `ObjectDoesntExist` can come back; when keys are hashes the index is never changed, and the scan succeeds exactly when every misfiled object is also filed under its own strata |
| ObjectRegistry.ObjectList.FixOneStrata | src/screen/objects.rs:118-136 | the pass over one strata's set leaves the index as it was when keys are hashes, and fails only on a misfiled object that is not also under its own strata |
| ObjectRegistry.ChangeToImpossibleStrata | src/screen/objects.rs:173-184 | moving an object to strata 101 is refused with the range error for 101 |
| ObjectRegistry.MisfiledObjectStays | src/screen/objects.rs:114-140 | an object filed only under a strata other than its own makes the scan fail with `ObjectDoesntExist` and is still filed where it was |
| ModelManager.AddIndexToCoordinates | src/screen/model_manager.rs:391-395 | the result minus the offset is a column below the row stride (grid width + 1) and a non-negative row that together give back the index |
| ModelManager.CalculateRelativeMovementFramePosition | src/screen/model_manager.rs:375-389 | a position exactly when dx + (width + 1) * dy + top left is non-negative, and then the new index differs from the old by exactly that shift |
| ModelManager.CalculateMovementOfModel | src/screen/model_manager.rs:400-413 | a relative movement is the relative calculation at the model's frame position; an absolute one with non-negative components is the model's top-left rule at that target |
| ModelManager.HitboxPosition | src/screen/model_manager.rs:356-363 | the hitbox coordinates, less the sprite-to-hitbox offset, are the cell of the frame index |
| ModelManager.ModelsAreColliding | src/screen/model_manager.rs:342-373 | never colliding when either hitbox is empty; otherwise exactly the rectangles' test at the two hitbox positions, the first at the new position when one is given |
| ModelManager.CollisionsOf | src/screen/model_manager.rs:90-101 | a collision report exactly when the list is non-empty, naming the collider, the movement and the list |
| ModelManager.RunAnimationEvent | src/screen/model_manager.rs:169-339 | the model must exist, then have animation data; queueing or overwriting fails exactly when no animation has the name and otherwise uses that animation; adding refuses a name in use and stores the new one; clearing and stopping always reach the animator; a missing animation is only reported for queue or overwrite |
| ModelManager.ModelManager.New | src/screen/model_manager.rs:29-34 | the manager shares the given storage |
| ModelManager.ModelManager.CheckCollisionsAgainstAllModels | src/screen/model_manager.rs:132-157 | nothing when the moving model is not registered; otherwise exactly the hashes of the other stored models it collides with, each once, and never its own hash |
| ModelManager.ModelManager.CheckIfMovementCausesCollisions | src/screen/model_manager.rs:105-126 | a missing model is an error; otherwise the report is present exactly when the moved model collides with some other model, and lists exactly those hashes; nothing is changed |
| ModelManager.ModelManager.MoveModel | src/screen/model_manager.rs:77-102 | a missing model is an error and an uncomputable position is out of bounds, both leaving the storage unchanged; otherwise only the moved model's position changes and the collisions at it are reported as above |
| ModelManager.CollidingHashes | src/screen/model_manager.rs:143-153 | the scan lists exactly the hashes of the other models the moving one collides with, each once |
| ModelManager.RelativeMovementShiftsCoordinates | src/screen/model_manager.rs:375-395 | moving cell (x, y) by (dx, dy) to a cell inside the frame's rows lands on that cell's index, which converts back to (x + dx, y + dy) |
| ModelManager.RelativeMovementOutOfBounds | src/screen/model_manager.rs:420-428 | moving (-10, -10) from any top left before the eleventh row's eleventh cell leaves the frame |
| ModelManager.EmptyHitboxesNeverCollide | src/screen/model_manager.rs:347-349 | a moving model with an empty hitbox collides with nothing, and no model with an empty hitbox is ever among the colliding ones |
| Printer.BlankFrame | src/screen/printer.rs:75-83 | the frame has the screen's length, with a newline at the end of every row but the last and the empty pixel everywhere else |
| Printer.CharacterIndex | src/screen/printer.rs:104-109 | cell `index` of a sprite lands `index / width` rows and `index % width` columns past its top left; only cell 0 lands on the top left itself |
| Printer.CellAt | src/screen/printer.rs:99-103 | a character a sprite draws is never its air character and always ASCII |
| Printer.PaintedAt | src/screen/printer.rs:99-115 | after painting, each index holds the character of the last cell drawn there, and is unchanged where no cell is drawn |
| Printer.ApplyModelInFrame | src/screen/printer.rs:86-116 | the loop's frame is the frame with every drawn cell of the model's sprite written at its index |
| Printer.FirstCellLandsOnPosition | src/screen/printer.rs:141-168 | a drawn first cell lands on the model's frame position, and the index just before it keeps the frame's character |
| Printer.PaintAll | src/screen/printer.rs:49-67 | painting models in turn keeps the frame's length |
| Printer.LastCover | src/screen/printer.rs:49-67 | the last model of the order that draws at an index, if any, and no later one draws there |
| Printer.PaintAllAt | src/screen/printer.rs:49-67 | each index shows what the last model drawing there draws, or the original frame's character when none does |
| Printer.HighestStrataShows | src/screen/printer.rs:49-67 | in strata order, the character shown at an index comes from a model of the highest strata drawing there; an index no model draws keeps the frame's character |
| Printer.Compose | src/screen/printer.rs:46-70 | the frame is the blank frame painted in an order that lists every stored model filed in strata 0 to 100 once, strata ascending, skipping filed keys with no model |
| Printer.ComposeStrata | src/screen/printer.rs:56-66 | one strata's pass adds exactly that strata's stored models to the order and paints them |
| Printer.ScreenPrinter.New | src/screen/printer.rs:17-22 | the printer reads the storage it is given |
| Printer.ScreenPrinter.Display | src/screen/printer.rs:46-70 | the frame of the stored world is the blank frame painted in display order |
| Pixels.FirstKey | src/general_data/map_methods.rs:9-11 | nothing exactly for an empty map; otherwise a held name that comes first in `String` order among all held names |
| Pixels.FirstKeyExists | src/general_data/map_methods.rs:9-11 | every non-empty set of names has a first one in `String` order |
| Pixels.KeyOrderIsAntisymmetric | src/general_data/map_methods.rs:9-11 | two names each ordered before the other are equal, so the first name is unique |
| Pixels.LowestNumber | src/screen/pixel.rs:226 | nothing exactly for an empty group; otherwise a held number no larger than any other |
| Pixels.FirstEntryUnique | src/screen/pixel.rs:223-234 | the first name and its lowest number are determined by the pixel's contents |
| Pixels.InsertedEntries | src/screen/pixel.rs:90-103 | inserting adds exactly one (name, number) entry with the given text, keeps every other entry's text, and leaves no name with an empty group |
| Pixels.RemovedEntries | src/screen/pixel.rs:130-171 | removing a held object takes away exactly its entry, keeps every other entry's text, and leaves no name with an empty group |
| Pixels.RemovedWholeGroup | src/screen/pixel.rs:150-158 | the same when the object was the last of its name, whose group is dropped |
| Pixels.RemovedFromGroup | src/screen/pixel.rs:141-149 | the same when other objects of the name remain |
| Pixels.RemoveUndoesInsert | src/screen/pixel.rs:90-171 | removing an object just inserted under a new (name, number) gives back the pixel's objects as they were |
| Pixels.InsertUndoesRemove | src/screen/pixel.rs:90-171 | putting back an object just removed gives back the pixel's objects as they were |
| Pixels.MoreThanOne | src/screen/pixel/checks.rs:24-30 | a group holds more than one object exactly when it holds two different numbers |
| Pixels.Pixel.New | src/screen/pixel.rs:39-46 | a new pixel has its index, no objects and no assignment, and keeps the pixel invariant |
| Pixels.Pixel.IsEmpty | src/screen/pixel/checks.rs:13-15 | true exactly when there is no first name, and then there are no entries |
| Pixels.Pixel.ContainsObject | src/screen/pixel/checks.rs:18-20 | true exactly when the pixel holds a group under the name |
| Pixels.Pixel.ContainsMultipleOf | src/screen/pixel/checks.rs:24-30 | true exactly when the name is held with two different numbers; implies the name is held |
| Pixels.Pixel.AssignedKeyHasMultipleObjects | src/screen/pixel/checks.rs:34-40 | true exactly when a name is assigned and it holds more than one object |
| Pixels.Pixel.HasNoAssignment | src/screen/pixel/checks.rs:46-48 | an unassigned pixel has no group for its assignment |
| Pixels.Pixel.GetBothAssignments | src/screen/pixel/pixel_assignments.rs:29-31 | the assigned key and number as stored; the key is absent exactly when the pixel has no assignment |
| Pixels.Pixel.TakeAssignedKey | src/screen/pixel/pixel_assignments.rs:50-52 | returns the assigned name and clears it; nothing else changes |
| Pixels.Pixel.TakeAssignedNumber | src/screen/pixel/pixel_assignments.rs:55-57 | returns the assigned number and clears it; nothing else changes |
| Pixels.Pixel.TakeBothAssignments | src/screen/pixel/pixel_assignments.rs:60-62 | returns both halves of the assignment and clears them; nothing else changes |
| Pixels.Pixel.Get | src/screen/pixel.rs:206-208 | a found group holds exactly the numbers the name is held with |
| Pixels.Pixel.GetCurrentDisplayData | src/screen/pixel.rs:174-190 | present exactly when both halves are set and the name is held, and then the assigned name with the assigned object's text |
| Pixels.Pixel.Display | src/screen/pixel.rs:50-62 | the assigned object's text when there is one, and the empty cell when either half of the assignment is missing |
| Pixels.Pixel.GetAllObjectsOfAssignedKey | src/screen/pixel.rs:193-203 | present exactly when a name is assigned and held, and then that name's group |
| Pixels.Pixel.GetLatestObjectKey | src/screen/pixel.rs:217-219 | nothing exactly for an empty pixel; otherwise the first name in `String` order |
| Pixels.Pixel.GetNewObjectAssignment | src/screen/pixel.rs:223-234 | present exactly for an unassigned, non-empty pixel, and then the first name with its lowest number |
| Pixels.Pixel.ChangeDisplayTo | src/screen/pixel.rs:65-80 | a held name is assigned with the given number; an unheld one is `NoObjectNamed` with the assignment unchanged; the objects never change |
| Pixels.Pixel.ClearDisplayData | src/screen/pixel.rs:83-85 | both halves of the assignment are cleared and nothing else changes |
| Pixels.Pixel.InsertObject | src/screen/pixel.rs:90-103 | the object is stored under its name and number; with reassignment the pixel shows it, without it the assignment stays; the invariant is kept |
| Pixels.Pixel.ReassignDisplayData | src/screen/pixel.rs:239-245 | an unassigned pixel is assigned its first object (nothing when empty); an assigned one ends unassigned; the objects never change |
| Pixels.Pixel.RemoveObject | src/screen/pixel.rs:130-171 | a held object is returned with its text and removed, and with reassignment the pixel then shows its first object; an unheld one changes nothing |
| Pixels.Pixel.RemoveDisplayedObject | src/screen/pixel.rs:110-126 | the assignment is taken, and the object it named is removed and returned if held; with reassignment the first object is shown, otherwise nothing |
| Pixels.InsertIntoEmptyPixel | tests/pixel_tests.rs:60-73 | one object into an empty pixel is one group of one |
| Pixels.InsertSameName | tests/pixel_tests.rs:75-92 | two objects of one name share one group |
| Pixels.InsertDifferentNames | tests/pixel_tests.rs:94-116 | objects of two names get a group each |
| Pixels.ReassignPicksFirstName | src/screen/pixel.rs:223-245 | reassignment picks the first name in `String` order, whatever the insertion order, and its lowest number |
| Pixels.RemoveShownWithoutReassign | src/screen/pixel.rs:130-171 | removing the shown object without reassignment keeps an assignment that names nothing the pixel holds |
| ScreenData.Pixel.New | src/screen/screen_data.rs:28-33 | a new pixel shows the empty cell and holds no objects |
| ScreenData.Pixel.ChangeDisplayTo | src/screen/screen_data.rs:39-41 | the pixel shows the new text and keeps its objects |
| ScreenData.Pixel.InsertObject | src/screen/screen_data.rs:43-45 | the name is appended to the pixel's objects and the shown text is kept |
| ScreenData.RowsAt | src/screen/screen_data.rs:61-73 | in the rows of a full grid of one-character texts, column `column` of row `row` is the newline ending the row or the text of grid cell `row * width + column` |
| ScreenData.ScreenData.New | src/screen/screen_data.rs:49-59 | a new screen is a full grid of fresh, distinct pixels, each showing the empty cell and holding no objects |
| ScreenData.ScreenData.Displays | src/screen/screen_data.rs:61-73 | the text each pixel shows, in grid order |
| ScreenData.ScreenData.Display | src/screen/screen_data.rs:61-73 | when every pixel shows one character, `GRID_HEIGHT` rows of `GRID_WIDTH + 1` characters: the pixels of the row in order, then a newline |
| ScreenData.ScreenData.ChangePixelDisplayAt | src/screen/screen_data.rs:75-77 | only the pixel at the coordinates' index changes its shown text; every pixel keeps its objects |
| ScreenData.ScreenData.InsertObjectAt | src/screen/screen_data.rs:79-81 | only the pixel at the coordinates' index gains the name; every pixel keeps its shown text |
| ScreenData.GeneratePixelGrid | src/screen/screen_data.rs:84-88 | `GRID_HEIGHT * GRID_WIDTH` fresh, distinct, empty pixels |
| ScreenData.FreshScreenDisplay | src/screen/screen_data.rs:49-88 | a new screen displays `GRID_HEIGHT` rows of `GRID_WIDTH` `O` cells, each row ended by a newline |
| ObjectScreenData.ObjectScreenData.New | src/screen/object_screen_data.rs:29-36 | a new record keeps the name, does not keep data, and has both counts at zero |
| ObjectScreenData.ObjectScreenData.Counts | src/screen/object_screen_data.rs:55-61 | the pair holds the record's current count and total count |
| ObjectScreenData.ObjectScreenData.IncrementTotal | src/screen/object_screen_data.rs:38-41 | the total grows by one and nothing else changes; the u32 must have room, as the source panics otherwise |
| ObjectScreenData.ObjectScreenData.IncrementCurrent | src/screen/object_screen_data.rs:43-46 | as written, the current count stays and the total grows by one |
| ObjectScreenData.ObjectScreenData.IncrementCurrentlyExisting | src/screen/object_screen_data.rs:43-46 | corrected: the current count grows by one and the total stays |
| ObjectScreenData.ObjectScreenData.DecrementCurrent | src/screen/object_screen_data.rs:48-53 | the current count drops by one, but never below zero; nothing else changes |
| ObjectScreenData.ObjectScreenData.SetKeepData | src/screen/object_screen_data.rs:63-65 | only the keep-data flag changes |
| ObjectScreenData.CurrentCountNeverRises | src/screen/object_screen_data.rs:43-46 | as written, two increments of the current count leave it at 0 and the total at 2 |
| ObjectScreenData.DecrementUndoesIncrement | src/screen/object_screen_data.rs:43-53 | with the corrected increment, two increments and one decrement leave the current count at 1 and the total at 0 |
| ObjectScreenData.DecrementSaturates | src/screen/object_screen_data.rs:48-53 | decrementing a zero count leaves it at zero |
| OldAnimationFrames.GetFrame | src/models/animation/animation_frames.rs:31-33 | a frame comes back exactly when the index is below the frame count, and it is the frame at that index |
| OldAnimationFrames.New | src/models/animation/animation_frames.rs:24-29 | keeps the frames and the loop count as given |
| OldAnimationFrames.FrameCount | src/models/animation/animation_frames.rs:35-37 | the number of frames |
| OldAnimationFrames.ReachedLoopCount | src/models/animation/animation_frames.rs:39-45 | reached exactly when the loop count is `Limited` and equals the whole loops, cast to `u32` |
| OldAnimationFrames.NewKeepsFrames | src/models/animation/animation_frames.rs:24-29 | `new` keeps the frames in order and the loop count as given |
| OldAnimationFrames.ForeverNeverReached | src/models/animation/animation_frames.rs:74-80 | a `Forever` animation never reaches its loop count |
| OldAnimationFrames.LimitedLoopsEndAfterAllFrames | src/models/animation/animation_frames.rs:39-45 | with `Limited(m)` and n frames, counting up from zero, the loop count is first reached at exactly m times n frames |
| OldAnimationFramesIterators.AnimationFramesIntoIter.IntoIter | src/models/animation/animation_frames_iterators.rs:9-19 | the iterator owns the animation and its counter starts at 0 |
| OldAnimationFramesIterators.AnimationFramesIntoIter.FrameAtCounter | src/models/animation/animation_frames_iterators.rs:29-31 | the frame picked by the counter modulo the frame count is one of the animation's frames |
| OldAnimationFramesIterators.AnimationFramesIntoIter.Next | src/models/animation/animation_frames_iterators.rs:24-36 | once the loop count is reached, nothing and the counter stays; before that, the frame at the counter and the counter goes up by one |
| OldAnimationFramesIterators.AnimationFramesIntoIter.CurrentFrameDuration | src/models/animation/animation_frames_iterators.rs:40-47 | the duration of the frame the counter points at, always present |
| OldAnimationFramesIterators.IterLogic | src/models/animation/animation_frames_iterators.rs:54-75 | three frames looping twice come out as the three frames twice, then nothing |
| OldAnimationFramesIterators.ExhaustedStaysExhausted | src/models/animation/animation_frames_iterators.rs:24-27 | an exhausted iterator keeps returning nothing |
| OldModelAnimation.ModelAnimatorData.New | src/models/animation.rs:63-70 | the model as given, nothing queued, nothing running, last frame change at iteration 0 |
| OldModelAnimation.ModelAnimatorData.HasAnimationsQueued | src/models/animation.rs:146-148 | true exactly while the queue is not empty |
| OldModelAnimation.ModelAnimatorData.HasAnimationsToRun | src/models/animation.rs:141-143 | false exactly when nothing is queued and nothing is running |
| OldModelAnimation.ModelAnimatorData.OverwriteCurrentAnimation | src/models/animation.rs:150-155 | a fresh iterator over the new animation runs; the queue, model and last frame change are kept |
| OldModelAnimation.ModelAnimatorData.AddNewAnimationToQueue | src/models/animation.rs:161-169 | with nothing running the animation runs at once, otherwise it joins the back of the queue; afterwards there is something to run |
| OldModelAnimation.ModelAnimatorData.ClearQueue | src/models/animation.rs:157-159 | the queue is empty and the running animation is kept |
| OldModelAnimation.ModelAnimatorData.OverwriteCurrentAnimationWithFirstInQueue | src/models/animation.rs:123-136 | an empty queue is `EmptyQueue` and nothing changes; otherwise the front leaves the queue and runs |
| OldModelAnimation.ModelAnimatorData.UpdateWhenLastFrameChanged | src/models/animation.rs:171-174 | records the iteration and changes nothing else |
| OldModelAnimation.ModelAnimatorData.NextFrame | src/models/animation.rs:176-181 | nothing when no animation runs; otherwise the running iterator's `next` |
| OldModelAnimation.ModelAnimatorData.GetCurrentAnimationFrameDuration | src/models/animation.rs:183-191 | none exactly when nothing runs, else the current frame's duration |
| OldModelAnimation.ModelAnimatorData.CurrentFrameDurationIsFinished | src/models/animation.rs:193-202 | true with nothing running; otherwise true exactly when the last frame change plus the frame's duration is at most the current iteration |
| OldModelAnimation.ModelAnimatorData.RunRequest | src/models/animation.rs:72-97 | answers true exactly for a removal request; queue, overwrite and clear requests are applied; adding an animator through a model changes nothing |
| OldModelAnimation.NoAnimatorsAreRunningIff | src/models/animation.rs:430-434 | no animator is running exactly when none has animations to run |
| OldModelAnimation.RunModelRequest | src/models/animation.rs:436-451 | a known hash has its request applied and is dropped exactly on a removal request; an unknown hash gains a fresh idle animator for `AddAnimator` and is otherwise ignored |
| OldModelAnimation.ModelAnimationData.New | src/models/animation.rs:239-244 | no animations and no connection |
| OldModelAnimation.ModelAnimationData.IsStarted | src/models/animation.rs:247-249 | true exactly when a communicator is assigned |
| OldModelAnimation.ModelAnimationData.ContainsAnimation | src/models/animation.rs:251-253 | true exactly when the name is stored |
| OldModelAnimation.ModelAnimationData.GetAnimation | src/models/animation.rs:371-384 | the stored frames exactly when the name is there, else `AnimationDoesntExist` |
| OldModelAnimation.ModelAnimationData.AddNewAnimationToList | src/models/animation.rs:386-401 | a taken name is `AnimationAlreadyExists` and nothing changes; a new name is stored; either way the name is then found |
| OldModelAnimation.ModelAnimationData.RemoveAnimationFromList | src/models/animation.rs:403-412 | what `get_animation` gave before, and the name is gone |
| OldModelAnimation.ModelAnimationData.AssignCommunicator | src/models/animation.rs:414-428 | connects when unconnected; a second connection is `AnimationDataAlreadyHasConnection` and keeps the first |
| OldModelAnimation.ModelAnimationData.SendRequest | src/models/animation.rs:346-369 | succeeds exactly when connected, else `AnimationNotStarted` |
| OldModelAnimation.AddThenRemove | src/models/animation.rs:386-412 | an added animation cannot be added again, comes back out when removed, and is then missing |
| OldModelAnimation.ConnectTwice | src/models/animation.rs:414-428 | a second communicator is refused, and requests can then be sent |
| OldModelAnimation.RunRequestLogic | src/models/animation.rs:526-620 | the first animation added runs at once, the second is queued, a clear empties the queue and keeps the running one, and a removal request answers true |
| OldModelAnimation.AddThenRemoveAnimator | src/models/animation.rs:436-451 | an animator added for an unknown model is idle, so an idle list stays idle, and a removal request takes it out again |
| AnimationThread.EndsThreadNeedsBoth | src/models/animation_thread.rs:38-45 | only a request that carries the kill hash AND is `KillThread` ends the thread; either one alone does not |
| AnimationThread.RunRequest | src/models/animation_thread.rs:103-116 | `AddAnimator` stores the animator under the hash, replacing any there; `RemoveAnimator` leaves the hash absent; `KillThread` changes nothing; no other hash is touched, and no hash appears from nowhere |
| AnimationThread.AddThenRemove | src/models/animation_thread.rs:103-116 | adding twice under a new hash keeps only the second animator, and removing that hash gives back the original list |
| ObjectMovements.DirectionsPartition | src/objects/object_movements.rs:18-32 | each of the four movements is horizontal or vertical but not both, and negative or positive but not both; the two answers together name the movement |
| ObjectMovements.IsHorizontal | src/objects/object_movements.rs:18-20 | true exactly for left and right |
| ObjectMovements.IsVertical | src/objects/object_movements.rs:22-24 | true exactly when the movement is not horizontal |
| ObjectMovements.MovesInNegativeDirection | src/objects/object_movements.rs:26-28 | true exactly for up and left, towards the top left |
| ObjectMovements.MovesInPositiveDirection | src/objects/object_movements.rs:30-32 | true exactly when the movement is not in the negative direction |
| ObjectSprites.ValidRectangleCheck | src/objects/sprites.rs:277-292 | a shape is accepted exactly when every line has the first line's length, with (first line's length, number of lines) as its size; otherwise `NonRectangularShape` |
| ObjectSprites.EmptyStringIsOneEmptyRow | src/objects/sprites.rs:277-292 | the empty shape is one empty line, a rectangle of size (0, 1) |
| ObjectSprites.HitboxCells | src/objects/sprites.rs:178-211 | lists, in increasing order, exactly the positions of the de-newlined shape whose character counts as hitbox |
| ObjectSprites.FoldOffsets | src/objects/sprites.rs:193-208 | one offset per hitbox cell of the prefix, each the cell's (column, row) minus the center's |
| ObjectSprites.GetHitboxData | src/objects/sprites.rs:178-211 | a ragged shape gives `NonRectangularShape`, a shape without the center character gives `NoCenter`, any other shape succeeds, and a success is the offset list of every hitbox cell from the center |
| ObjectSprites.OffsetsLeadToHitboxCells | src/objects/sprites.rs:178-211 | the center cell holds the center character, and every returned offset leads from it to a hitbox cell inside the shape |
| ObjectSprites.HitboxCellsHaveOffsets | src/objects/sprites.rs:178-211 | every hitbox cell of the shape, by row and column, has its offset from the center in the list |
| ObjectSprites.CellHasOffset | src/objects/sprites.rs:178-211 | every hitbox cell of the de-newlined shape, by position, has its offset in the list |
| ObjectSprites.CenterInOffsets | src/objects/sprites.rs:193-208 | when the center counts as hitbox, offset (0, 0) is in the list |
| ObjectSprites.NewSkin | src/objects/sprites.rs:236-257 | fails with `NoCenter` exactly when the de-newlined shape lacks the center character; otherwise keeps the characters and records the center's first position |
| ObjectSprites.FixSkin | src/objects/sprites.rs:261-266 | every center character is replaced by the replacement character, every other character and field is kept, and no center character remains when the two differ |
| ObjectSprites.Sprite.Of | src/objects/sprites.rs:96-101 | a sprite holds the skin and hitbox it is given |
| ObjectSprites.Sprite.ChangeHitbox | src/objects/sprites.rs:124-131 | a failing hitbox is reported and the old one kept; otherwise the new offsets replace the old; the skin never changes |
| ObjectSprites.NewSprite | src/objects/sprites.rs:96-101 | a failing hitbox is the sprite's error; otherwise a fresh sprite with the fixed skin and the hitbox's offsets |
| ObjectHitboxes.CreateEmpty | src/objects/hitboxes.rs:28-35 | the empty hitbox has no size and no offset |
| ObjectHitboxes.ValidRectangleCheck | src/objects/hitboxes.rs:105-120 | the empty string is `EmptyHitboxString`; any other string is judged as the sprite rectangle rule judges it |
| ObjectHitboxes.AgreesWithRectangularDimensions | src/objects/hitboxes.rs:105-120 | the check accepts exactly the shapes the newer engine's rectangle rule accepts, with the same size |
| ObjectHitboxes.ThreeEqualRows | src/objects/hitboxes.rs:105-120 | three copies of one line are a rectangle of that line's width and height three |
| ObjectHitboxes.FirstRowsDiffer | src/objects/hitboxes.rs:105-120 | a shape whose first two lines differ in length is `NonRectangularShape`, whatever follows |
| ObjectHitboxes.ValidRectangleCheckSquare | src/objects/hitboxes.rs:126-135 | the 3 by 3 square is a rectangle of size (3, 3) |
| ObjectHitboxes.ValidRectangleCheckRagged | src/objects/hitboxes.rs:137-146 | lines of lengths 2, 3, 1 and 6 are not a rectangle |
| ObjectHitboxes.ValidRectangleCheckEmpty | src/objects/hitboxes.rs:148-157 | the empty string is `EmptyHitboxString` |
| ObjectHitboxes.GetHitboxData | src/objects/hitboxes.rs:71-98 | a shape that trims to nothing is the empty hitbox; otherwise the rectangle error, `NoCenter`, and for a rectangle holding the center a success: a hitbox of the shape's size placed so its first center cell lands on the skin's center |
| ObjectHitboxes.PlacedCellHoldsCenter | src/objects/hitboxes.rs:71-98 | the cell the placement uses holds the center character and no earlier cell does |
| ObjectHitboxes.WhiteSpaceIsEmptyHitbox | src/objects/hitboxes.rs:71-74 | a shape of white space alone, newlines included, is the empty hitbox |
| ObjectHitboxes.GetHitboxPosition | src/objects/hitboxes.rs:39-46 | the result minus the hitbox offset is the (column, row) of the object's position in rows of the screen's stride |
| ObjectData.From | src/objects/object_data.rs:18-42 | a missing position becomes (0, 0) and a missing `keep_data` false; given values are kept |
| ObjectData.GetObjectWidth | src/objects/object_data.rs:126-128 | at least the first line's length, and zero exactly when the shape is empty or starts with a newline |
| ObjectData.GetObjectHeight | src/objects/object_data.rs:130-132 | at least one, and one exactly when the shape has no newline |
| ObjectData.FirstLineEmpty | src/objects/object_data.rs:126-128 | the first line is empty exactly when the shape is empty or starts with a newline |
| ObjectData.SingleLine | src/objects/object_data.rs:130-132 | a shape is one line exactly when it has no newline |
| ObjectData.LaterLines | src/objects/object_data.rs:126-132 | lines after the first leave the width alone and each adds one to the height |
| ObjectData.ObjectSizes | tests/object_tests.rs:117-139 | "1234" and "1234\n1234" are equally wide, and one and two lines high |
| ObjectData.Create | src/objects/object_data.rs:63-72 | number zero, the information's name, shape and position, and the shape's width and height |
| ObjectData.GetBottomRightOfObject | src/objects/object_data.rs:107-112 | the corner is width-1 columns and height-1 rows past the position, so the covered rectangle is width by height |
| CollisionChain.Merge | examples/model_tests/collision_data.rs:55-58 | inserting every entry of another chain: the keys are the union, the other chain's action wins on a shared hash and this chain's survives elsewhere |
| CollisionChain.CollisionChain.New | examples/model_tests/collision_data.rs:29-34 | a new chain holds no actions and is not cancelled |
| CollisionChain.CollisionChain.CancelActionChain | examples/model_tests/collision_data.rs:46-48 | the chain becomes cancelled and keeps its actions |
| CollisionChain.CollisionChain.AddAction | examples/model_tests/collision_data.rs:50-53 | the action is stored under its model's hash, replacing any earlier one for that model; cancellation is unchanged |
| CollisionChain.CollisionChain.Append | examples/model_tests/collision_data.rs:55-63 | the actions become the merge with the other chain's, and the chain is cancelled when either chain was |
| CollisionChain.CollisionChain.ChangeMovementOf | examples/model_tests/collision_data.rs:65-69 | only the movement under the key changes, every other action and the key set stay; the key must be present, as the source unwraps |
| CollisionChain.CollisionChain.RunActionList | examples/model_tests/collision_data.rs:36-44 | a cancelled chain performs nothing; otherwise each stored action exactly once, as many as there are hashes |
| CollisionChain.ChainLogic | examples/model_tests/collision_data.rs:46-69 | a second action for a model replaces the first, a changed movement is kept, and appending a cancelled chain cancels the whole chain so nothing runs |

## Left out

- Threads and channels are not modelled, because their point is concurrency. This covers the loops of both animation threads, `send_request`/`kill_thread` over `mpsc`/`oneshot`, the tick clock and the input thread. Only the request handlers (`run_request`, `run_model_request`) and the kill-request test are modelled.
- `Arc<Mutex>`/`RwLock` sharing is replaced by plain owned state or object references. Lock poisoning is not modelled.
- Wall-clock time (`EventSync`, `Duration`, `Instant`) is not modelled. The animator's start is a tick passed in by the caller. These depend on elapsed time and are left out: `get_current_model_appearance`, `remove_finished_animations`, `current_animation_is_finished`, `get_remaining_duration_of_current_animation`, `restart_animation_start_with_remaining_time` and `ModelAnimationData::get_current_appearance`.
- `ModelAppearance.ModelAppearance.GetAppearance` takes the animated sprite as a parameter, because choosing it needs the elapsed time.
- `ModelAppearance.ModelAppearance.FullValidityCheck` takes the failures the stored animations report as a parameter. It models the no-data path and how the default sprite's entry is added.
- Hitboxes.SkinTopLeftToHitboxTopLeft: computes index / width exactly and then rounds, where the source rounds an `f32` quotient that is itself rounded. The two agree for every index below 2^23 and width below 2^24: there the `f32` error is smaller than the distance from the exact quotient to the nearest rounding boundary. Above that they can differ: index 12582913 and width 3 give the `f32` quotient 4194304.5, rounded to row 4194305, where the model gives 4194304. The NaN of a zero width is modelled only through its casts to 0 and `isize::MAX`.
- Nothing on the terminal side is modelled: `print_screen`, `clear_screen`, `dynamic_print` and `clear_grid` belong to the external printer crate.
- `Rectangle::get_string_dimensions` calls `Printer::get_rectangular_dimensions`, which is not part of this model. It is replaced by the rule of src/objects/hitboxes.rs:105-120.
- `Rectangle::is_colliding` is not part of this model. `ModelManager.ModelsAreColliding` and the collision scan take it as a parameter.
- `ModelData::calculate_top_left_index_from` is not part of this model. `ModelManager.CalculateMovementOfModel` takes it as a parameter.
- The methods of `ModelData` are not part of this model (model_data.rs is commented out). `ModelRecord.ModelData` is a record of the fields its callers read.
- File reading in both `parse` functions is not modelled: the parsers take the file's contents.
- The directory test on an animation path is a parameter.
- `ModelAnimationData::from_file`, `stored_worlds.rs` (bincode), the configuration builders and the logger are not modelled; they are I/O.
- Turning the parsed builder into a `ModelData` (`build`) is not modelled: `ModelData` is not part of this model.
- `ModelAppearance`'s `queue_model_animation`, `overwrite_current_model_animation`, `clear_model_animation_queue` and `stop_current_model_animation` are not modelled. They call methods of `ModelAnimationData` that the source does not define.
- `ModelAppearance::add_animation_to_model` is not modelled. It returns the `Result` of `add_new_animation_to_list` where it declares an `Option`.
- ModelManager.RunAnimationEvent reports a missing animation as `AnimationDoesntExist` carrying the requested name (or the empty name when there is none). The source builds the variant without a payload (src/screen/model_manager.rs:301 and 311), which does not match the struct variant with a name declared at model_data_structures/src/models/animation/errors.rs:29, so the payload here is the model's choice.
- ModelManager.RunAnimationEvent: the manager's queue, overwrite, add, clear and stop requests are modelled only through `run_animation_event`'s checks and error order. The model returns the request it would forward and does not apply it to the model's animator.
- `add_model_to_animation_thread`, `add_animation_connection`, `is_connected_to_animation_thread` and `get_model_list` need the animation connection or a closure over the locked storage, so they are not modelled. The manager's `get_model` and `model_exists` are the storage's (`ModelStorage.InternalModels.GetModel`, `ModelStorage.InternalModels.ModelExistsIffStored`).
- `CollisionAction::act` moves a shared model and is not modelled. `CollisionChain.CollisionChain.RunActionList` returns the actions it would run.
- The `HashMap`/`HashSet` iteration order is unspecified, so the model does not fix it. The collision chain, the collision scan and the printer's pass within one strata take keys in any order. Their contracts do not depend on the order, except which of two overlapping models of one strata shows on top.
- `place_object` and `movement_goes_out_of_bounds` (src/objects/object_data.rs:74-104, 114-123) are not modelled. They drive the old screen's placement, which is only partly written in the source.
- `ObjectScreenData::object_still_exists` is a `todo!()` in the source.
- The `Display` and `Debug` formatting implementations are not modelled.
- The source's old `src/general_data/coordinates.rs` `index_to_coordinates`, `coordinates_to_index`, `add` and `subtract` are the formulas of `EngineCoordinates`, so they are not modelled twice.
- Plain getters with no logic (`get_object_list`, an object's `get_name`, `get_assigned_key`, `get_assigned_number` and the `clone_*` copies in `pixel_assignments.rs`, `get_frame_duration`, `get_appearance` of an old frame) are not modelled separately. The fields they return are the model's fields. Of `pixel_assignments.rs`, `get_both_assignments` and the `take_*` are modelled.
- AnimationFrames.GetFrameBasedOnTicks and AnimationFrames.FrameBasedOnTicks require a non-zero cycle duration for a `Forever` animation. The source takes the ticks modulo the cycle duration and panics on zero; a limited animation returns before that.
- The frame iterators and `reached_loop_count` require at least one frame, because the source divides by the frame count.
- AnimationFrames.GetCycleDuration: the sum of frame durations is unbounded here. The source's `u32` sum would panic in debug builds on overflow.
- AnimationFramesIterators.AnimationFramesIntoIter.Next: the newer iterator's `u64` counter is unbounded here, so counting past 2^64 is not modelled. The older iterator requires room below its limit.
- ObjectData.GetBottomRightOfObject requires that the `usize` subtraction does not underflow, because the source panics there.
- ObjectScreenData.ObjectScreenData.IncrementTotal and ObjectScreenData.ObjectScreenData.IncrementCurrent require room below the `u32` limit, because the source's `+= 1` panics there.
- ModelManager.AddIndexToCoordinates and ModelManager.CalculateRelativeMovementFramePosition do not model `isize`/`usize` overflow of the sums.
- GeneralCoordinates.GetCoordinatesInBetween requires the bottom-right corner to lie right of and below the top-left one. On any other corners the source's walk (src/general_data/coordinates.rs:54-62) never reaches `bottom_right` and does not terminate, which a terminating method cannot model.
- Text.Lower folds only the ASCII letters, where Rust's `to_lowercase` folds all of Unicode. A parser keyword written with a non-ASCII letter that lower-cases to an ASCII one (the Kelvin sign lower-cases to `k`) is refused by the model and accepted by the source.
- EngineCoordinates.Subtract models the `as isize` casts, but not overflow of the `isize` subtraction after them. The difference is unbounded here. In the source it panics in debug builds, and wraps in release builds, when it leaves the `isize` range.
- StoredModels.New stores the model's current sprite as its appearance. The source clones the whole `ModelAppearance`, animation data included; that animation data is not part of the stored copy here.
- CollisionChain.CollisionChain.ChangeMovementOf requires the key to be in the chain, because the source unwraps the lookup and panics otherwise.
- ModelStorage.InternalModels.Remove and ModelStorage.InternalModels.FixStrataList require every hash filed under a strata from 0 to 100 to be a stored model (Remove only when the model is not where `model_exists` looks). The source's `fix_strata_list` unwraps the lookup of each filed hash (src/screen/model_storage.rs:182) and panics otherwise.
- EngineCoordinates.Add and EngineCoordinates.CoordinatesToIndex compute on unbounded naturals. The source's `usize` sum and product panic on overflow in debug builds and wrap in release builds; neither is modelled.
- Sprites.GetDimensions requires a rectangular shape, because the source unwraps `get_string_dimensions`.
- Sprites.GetAnchorAsCoordinates also requires a width above 0, because the source divides by the width and panics on zero.
- Printer.FitsIn and Printer.AllFit are required by Printer.ApplyModelInFrame, Printer.Compose and Printer.ScreenPrinter.Display. They stand for the bounds check of `replace_range`, which panics when a drawn cell falls outside the frame, and for the unwrap of the sprite's dimensions.
- Pixels.Pixel.Display, GetCurrentDisplayData, GetNewObjectAssignment, ReassignDisplayData, RemoveObject and RemoveDisplayedObject require DisplayResolves, CurrentDataResolves, NewAssignmentResolves or GroupsNonEmpty, and Pixels.Pixel.AssignedKeyHasMultipleObjects requires the assigned name to be held. Each stands for an `unwrap` in src/screen/pixel.rs or src/screen/pixel/pixel_assignments.rs that panics otherwise. The source can reach such a state: insert O1 number 0 with reassignment, remove it without reassignment, then insert O1 number 1 without reassignment; the assignment then names O1 number 0, which is not held, and `remove_displayed_object` panics at pixel.rs:115. The model does not capture that panic.
- ScreenData.ScreenData.ChangePixelDisplayAt and ScreenData.ScreenData.InsertObjectAt require the coordinates' index to lie inside the screen, because the source indexes its pixel `Vec` and panics otherwise.
- ObjectRegistry.ObjectList.FixStrataList requires FilesAreKeys, and OldModelRegistry.InternalModels.FixStrataList requires every filed hash to be a stored model (FilesAreStoredBelow). The first half of FilesAreKeys, every filed key is a stored object, and FilesAreStoredBelow stand for an `unwrap` on the lookup of a filed key, which panics otherwise. The second half of FilesAreKeys, every object's own hash is also a key, is more than that unwrap: `insert_strata` files an object's hash rather than its key (src/screen/objects.rs:91-101), so this half is what keeps the later unwraps on re-filed hashes safe.
- ModelStorage.InternalModels.InsertStrata and OldModelRegistry.InternalModels.InsertStrata file the map key, where the source files `model.get_unique_hash()`. The two agree whenever every model is stored under its own hash: ModelStorage.InternalModels.KeysAreHashes states this, and `New` establishes it and `Insert` keeps it. A registry built otherwise is not modelled.
- ModelRecord.ChangePosition, ModelRecord.HitboxIsEmpty and ModelRecord.SpriteToHitboxAnchorDifference are plain field accesses on the model record. The methods of those names are in model_data.rs, which is commented out, so these have no row.
- The animation-thread kill request reaching an animator panics in the source. `OldModelAnimation.ModelAnimatorData.RunRequest` requires that it is not a kill request.

## Findings

| source | as written | input that shows it | evidently intended | confidence | as-written member | corrected member |
|---|---|---|---|---|---|---|
| engine_math/src/rectangle.rs:31-33 | `area` adds the two sides, so `index_is_valid` accepts only indices below x + y | a 3 by 3 rectangle refuses its cells 6, 7 and 8 | the area is x * y, so every cell of the rectangle is a valid index | not executed | EngineRectangle.SumAreaOnThreeByThree | EngineRectangle.IndexIsInsideIff |
| model_data_structures/src/models/hitboxes.rs:132-133 | the anchor's row is index / width rounded to the nearest integer | width 3 and anchor index 5 (column 2, row 1) give row 2 | the row is the floor of index / width | not executed | Hitboxes.RoundedRowMisplacesAnchor | Hitboxes.SkinTopLeftToHitboxTopLeftFloor |
| model_data_structures/src/models/hitboxes.rs:70-72 | `get_hitbox` calls a hitbox empty when `area()`, the sum of the sides, is zero | dimensions 3 by 0 hold no cells but give a non-empty hitbox | empty exactly when the hitbox has no cells | not executed | Hitboxes.ZeroHeightHitboxIsNotEmpty | Hitboxes.GetCorrectedHitbox |
| model_data_structures/src/models/sprites.rs:56 | `change_shape` looks for the anchor stored before the call, not the new one | the default sprite given shape "x" and new anchor 'x' is refused with `NoAnchor` | look for the anchor the sprite will have | not executed | OldSprites.ChangeShapeUsesStoredAnchor | OldSprites.ChangeShapeFindsNewAnchor |
| model_data_structures/src/models/sprites.rs:119-125 | `calculate_anchor_index` counts positions in the shape with its newlines, against its documentation | "---\n-x-" with anchor 'x' gives 5 | the index among the cells without newlines, 4 | not executed | OldSprites.AnchorIndexCountsNewlines | Sprites.CalculateAnchorIndex |
| model_data_structures/src/models/sprites.rs:76-78 | `change_anchor_character` discards the shape with the anchor replaced | the sprite "a" with anchor 'a' renamed to 'x' keeps shape "a" and so has no anchor | the stored shape holds the new anchor | not executed | OldSprites.ChangeAnchorLosesAnchor | Sprites.ChangeAnchorKeepsConsistent |
| src/general_data/Coordinates.rs:11-13 | `index_to_coordinates` returns (row, column) while `coordinates_to_index` reads (column, row) | index 1 becomes (0, 1), which maps back to 175 | return (column, row) so the two are inverse | not executed | FixedWidthCoordinates.AsWrittenDoesNotRoundTrip | FixedWidthCoordinates.CoordinatesRoundTrip |
| src/screen/object_screen_data.rs:44-46 | `increment_current` increments the total count | two calls on a new counter leave the current count 0 and the total 2 | increment the current count | not executed | ObjectScreenData.CurrentCountNeverRises | ObjectScreenData.DecrementUndoesIncrement |
| src/screen/models.rs:169-175 | `fix_model_strata` keeps a strata set it empties, so `get_strata_keys` (lines 58-63) answers with an empty set where its documentation promises `None` | moving the only model of strata 0 to strata 1 leaves strata 0 with an empty set | drop the emptied set, as the newer model storage does | not executed | OldModelRegistry.EmptiedSetIsKept | ModelStorage.MisplacedStrata |
| src/screen/objects.rs:63-83 | `change_object_strata` removes the hash from the set of the object's own strata, not from the set it is misfiled in, so `fix_strata_list` cannot move a misfiled object | an object of strata 1 filed only under strata 0 makes `fix_strata_list` fail and stays under strata 0 | remove the hash from the strata it is found in, as the newer model storage's `fix_strata_list` does | not executed | ObjectRegistry.MisfiledObjectStays | ModelStorage.InternalModels.FixStrataList |
