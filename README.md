# A3C with pseudo-count exploration: GameState and checkpoint scheduling

This project models two parts of an asynchronous advantage actor-critic (A3C)
trainer for Atari games, one that adds a pseudo-count exploration bonus, and
proves properties of them.

- **`GameState`** (game_state.py) is one worker's view of the Arcade Learning
  Environment. It is modelled as the class `GameStateModel.GameState`.
  - `reset` restarts the game, performs a random number of no-ops, and builds a
    stack of four copies of the first frame.
  - `process` runs a frame skip. In the "stacked" mode it keeps one frame per
    skipped act. Otherwise it takes F-1 action-only acts and then one captured
    frame, which is shifted into the stack.
  - `update` makes the next stack the current one.
  - Every observed frame is downsized and quantised into buckets, then added to
    a `k x (maxval+1)` count table (the pseudo-count density model). The
    exploration reward comes from the counts read *before* the increment.
  - In Montezuma's Revenge a 24-entry room histogram flags the first visit to a
    room.
- **The trainer's start-up and loop** (a3c.py).
  - A restore reads the global step back from the checkpoint path, and the
    elapsed wall time from the `wall_t.<step>` file.
  - It schedules the next save at the next multiple of the save interval.
  - Each loop iteration lets worker 0 save when the step has passed that
    boundary, then leaves on a stop request or past the step horizon, and
    otherwise adds the worker's step delta.
  - These are modelled by the pure functions of `A3C` and `CheckpointNames`
    and by the class `A3C.Trainer`, which holds the module globals.

The emulator is an oracle `emu: seq<Input> -> Observation`. It answers, for the
whole history of `reset_game` and `act` inputs, the last act's reward, the
game-over flag, the processed frame, the lives and RAM byte 3 (the room).
Frames are an opaque type.

Each `GameState` method is proved against a specification function on a value
view of the object. `GameView` groups the run, episode, room and density parts.
The examples are `View() == AfterProcess(old(View()), a)` and
`View() == AfterReset(old(View()), noOps)`. The properties of process and reset
are lemmas about those functions. The class invariant `Valid` ties the two
arrays to ghost logs:

- the room histogram counts the log of rooms read;
- the count table is the installed table plus the hits of every image added
  since it was installed.

The start-up follows the code as written. `A3C.Restore`, `A3C.Launch` and the
`Trainer` read the step from the token after the first '-' of the checkpoint
path. So they fail for a checkpoint directory with exactly one '-'. With more
dashes the step can be read from the directory name, and the restart can then
resume at the wrong step without an error (see Findings).
`A3C.RestoreIntended` is the corrected restore, and its round trip is proved
for every directory.

Modules: `Wrappers` (Option, Result), `Arith` (proof helpers about multiplication and division, not models of the source), `Histogram`
(occurrence counts), `PseudoCount` (quantisation and hit counts), `Emulator`
(oracle and frame-skip outcome), `GameStateModel`, `CheckpointNames` (str, int,
split, file names), `A3C`.

## Model

| member | source | states |
|---|---|---|
| PseudoCount.Quantise | game_state.py:242 | The bucket of a pixel is at most maxval and is the floor of x·maxval/255. |
| PseudoCount.QuantiseMonotone | game_state.py:242 | A brighter pixel never lands in a lower bucket. |
| PseudoCount.QuantiseEnds | game_state.py:242 | Pixel 0 is bucket 0 and pixel 255 is bucket maxval, so all of 0..maxval is reachable. |
| PseudoCount.QuantiseImage | game_state.py:240-242 | The quantised image has the length of the downsized one and every bucket is in 0..maxval, so the table indexing at lines 114/120 is in range. |
| PseudoCount.HitsAppend | game_state.py:115-120 | Adding an image raises the hit count of (slot i, bucket j) by one exactly when the image's slot i is bucket j. |
| PseudoCount.HitsPerSlot | game_state.py:114-120 | Every added image counts exactly once per slot: the hits of one slot summed over all buckets equal the number of images. |
| PseudoCount.SumHitsAppend | game_state.py:115-120 | Over buckets 0..width-1, one more image adds one to a slot's total exactly when its bucket lies in that range. |
| PseudoCount.SumHitsEmpty | game_state.py:94 | A table with no images has zero hits in every slot. |
| Histogram.OccurrencesAppend | game_state.py:139 | Logging a room adds one to its own count and nothing to any other room. |
| Histogram.OccurrencesZero | game_state.py:140 | A room has count 0 exactly when it has never been logged. |
| Emulator.Repeat | game_state.py:283 | n copies of one frame. |
| Emulator.Acts | game_state.py:311-331 | The history after j more acts extends the old one by exactly j inputs. |
| Emulator.ActsNext | game_state.py:311-331 | One more act appends that act to the history. |
| Emulator.FirstGameOverFrom | game_state.py:313-331 | The first act from j on that ends the game, or n: no game over before it, one at it. |
| Emulator.FirstGameOver | game_state.py:313-331 | The index of the first game over among n acts, or n if there is none. |
| Emulator.FirstGameOverUnique | game_state.py:329-331 | Any index with no game over before it and one at it is the first game over. |
| Emulator.SkipOutcomeShape | game_state.py:306-338 | A skip of n acts ends terminal exactly when one of them ends the game, and it extends the history by at least one and at most n acts. |
| Emulator.SkipStopsAtSecondOfFour | game_state.py:311-316 | If the second of four acts ends the game, only two acts happen and the reward is theirs, with the flag set. |
| Emulator.SkipWithoutGameOver | game_state.py:311-331 | Without a game over, all n acts happen and every reward is summed. |
| Emulator.SkipFrames | game_state.py:311-317 | The stacked mode yields exactly n frames. |
| Emulator.SkipFramesFreeze | game_state.py:311-317 | The last stacked frame is the screen after the skip's last act, and every slot from the first game over on repeats it. |
| GameStateModel.Zeros | game_state.py:94 | The initial count table has k rows of maxval+1 entries. |
| GameStateModel.LoggedCounts | game_state.py:114 | The counts read at an image's buckets have one entry per slot. |
| GameStateModel.ShiftIn | game_state.py:335 | The next stack keeps the depth, ends with the new frame, and holds the old stack shifted by one before it. |
| GameStateModel.GameState.Counts | game_state.py:114 | The pre-increment counts read at the image's buckets have k entries. |
| GameStateModel.GameState.CountsAreLogged | game_state.py:114 | Under the invariant, the counts read from the table are the installed table's plus the hits of the logged images. |
| GameStateModel.GameState.PscImageOf | game_state.py:239-242 | A frame's bucket image has the downsized length and every bucket is at most maxval. |
| GameStateModel.GameState.VisitRoomFlagsFirstVisit | game_state.py:135-144 | A visit adds exactly one to the room's count, flags the room as new exactly when that count becomes 1, otherwise keeps the old new room, and shifts room_no into prev_room_no. |
| GameStateModel.GameState.RestartHistory | game_state.py:262-279 | Reset appends a game reset, then the no-ops and one act with action 0, and keeps the old history as a prefix. |
| GameStateModel.GameState.ResetStartsEpisode | game_state.py:277-296 | After reset the stack is four copies of the reset frame, the reward is 0, new_room is -1, the flag is the emulator's, both lives fields are read, and a recorded episode advances with its image counter at 1. |
| GameStateModel.GameState.ProcessActsAtMostF | game_state.py:306-335 | process keeps the old history and acts at most frames_skip_in_gs times. |
| GameStateModel.GameState.TerminalShortCircuit | game_state.py:306-338 | Once terminal, process leaves the emulator untouched exactly in the stacked mode or with one frame per step; then the reward is 0 and the flag stays set. |
| GameStateModel.GameState.StackedStep | game_state.py:308-317 | In the stacked mode the next stack has exactly F frames and the last is the current screen. Before terminal, the acts stop right after the first game over, the reward sums the acts up to and including it, the flag is set exactly when a game over occurred, and later slots repeat the last frame. Once terminal, every slot is the current screen and the reward is 0. |
| GameStateModel.GameState.ShiftKeepsDepth | game_state.py:333-335 | In the unstacked mode a four-deep stack yields a four-deep next stack: the old frames 1..3 followed by the step's last screen. |
| GameStateModel.GameState.ProcessCountsOnce | game_state.py:298-348 | process adds exactly one image, that of its last screen, to the density model and leaves the installed table alone. With the model off, or with n == 0, its pseudo-count reward is 0. |
| GameStateModel.GameState.SameFrameTwice | game_state.py:112-121 | For the same frame twice, the second reward is the bonus of counts each one higher, with n one higher, including on an empty model, where the first reward is 0. This shows the first image's increment is what the second read sees. |
| GameStateModel.GameState.constructor | game_state.py:19-95 | The attribute setup: a zero histogram and zero table, room 1, episode 1, no new room, and the invariant established. |
| GameStateModel.GameState.PscSetPscInfo | game_state.py:100-103 | A snapshot with psc_n == 0 changes nothing. Any other installs a fresh copy of the snapshot's table and counter, and the invariant is kept. |
| GameStateModel.GameState.Increment | game_state.py:115-120 | Every slot's bucket of the image gains exactly one and every other table entry is unchanged. |
| GameStateModel.GameState.PscAddImage | game_state.py:106-132 | A non-uint8 image is the fatal error. An image that does not have exactly k slots, each a bucket in 0..maxval, is modelled as an IndexError (numpy broadcasting is under Left out); on either error nothing changes. Otherwise each slot's bucket gains one, every other entry is unchanged, n gains one, and the reward is 0 when n was 0 and otherwise the bonus of the pre-increment counts and the old n. |
| GameStateModel.GameState.CountRoom | game_state.py:138-140 | The room's count gains one and no other count changes; `first` holds exactly when the count became 1, which is exactly when the room had not been logged. |
| GameStateModel.GameState.UpdateMontezumaRooms | game_state.py:135-144 | The room in RAM byte 3 gains one visit and no other room changes. It becomes new_room exactly on the visit that makes its count 1, and room_no moves into prev_room_no. |
| GameStateModel.GameState.PseudoCount | game_state.py:237-249 | With the density model on, the frame's bucket image is added; in Montezuma's Revenge the current room is visited. The reward is that of the pre-increment counts (0 if the model is off or empty). |
| GameStateModel.GameState.ProcessAction | game_state.py:163-172 | Always acts once; the reward and flag are the emulator's and the flag is stored. |
| GameStateModel.GameState.ProcessFrame | game_state.py:174-235 | Once terminal it does not act, gives reward 0 and keeps the flag. Otherwise it acts once and stores the emulator's flag. Either way the frame is the current screen. |
| GameStateModel.GameState.SkipStacked | game_state.py:308-317 | The loop's reward, flag, history and F frames equal the frame-skip specification. Once terminal it gives F copies of the current screen with reward 0. |
| GameStateModel.GameState.SkipActionOnly | game_state.py:326-335 | Up to F-1 action-only acts, stopping at the first game over, then one frame. The whole matches the frame-skip specification except for an already terminal single-frame step, which does not act. |
| GameStateModel.GameState.Advance | game_state.py:306-338 | The run part after process's frame skip is the specification `AdvanceRun` applied to the old one, and the invariant is kept. |
| GameStateModel.GameState.FinishStep | game_state.py:340-348 | Stores the pseudo-count reward, reads the lives, and advances the image counter of a recorded episode. |
| GameStateModel.GameState.CountStep | game_state.py:340-348 | The end of process matches `AfterCountStep` on the step's last frame. |
| GameStateModel.GameState.Process | game_state.py:298-348 | The whole new state is `AfterProcess(old state, real_actions[action])`, and the invariant is kept. |
| GameStateModel.GameState.Update | game_state.py:351-352 | s_t becomes s_t1, nothing else changes, and the depth invariant is kept. |
| GameStateModel.GameState.RestartGame | game_state.py:262-279 | The history is the restart history; the flag and frame are the emulator's after it. |
| GameStateModel.GameState.StartStack | game_state.py:281-283 | Reward 0 and four copies of the frame. |
| GameStateModel.GameState.StartCounters | game_state.py:284-295 | Lives and initial lives are read, a recorded episode is counted with its image counter at 1, and new_room is -1. |
| GameStateModel.GameState.StartEpisode | game_state.py:281-296 | The stack, counters and new_room as above; everything else is unchanged. |
| GameStateModel.GameState.BeginEpisode | game_state.py:279-296 | The end of reset matches `AfterBegin` on the reset frame. |
| GameStateModel.GameState.Reset | game_state.py:260-296 | The whole new state is `AfterReset(old state, noOps)`, with noOps within no_op_max // frames_skip_in_ale, and the invariant is kept. |
| GameStateModel.NewGameState | game_state.py:19-97 | Fails exactly when the minimal action set does not have action_size entries. Otherwise it builds a fresh object configured with the given options, emulator, downsizing, bonus and action set, whose state is a reset of the initial view, with the invariant. |
| CheckpointNames.DigitChar | a3c.py:86 | A digit below 10 renders as the character with that value. |
| CheckpointNames.Show | a3c.py:86-106 | str(n) is a non-empty digit string. |
| CheckpointNames.ParseNat | a3c.py:83 | The model's int(s) succeeds exactly on a non-empty string of ASCII digits (other forms Python accepts are listed under Left out). |
| CheckpointNames.ShowDigitsValue | a3c.py:83-86 | The digits of str(n) have value n. |
| CheckpointNames.ParseShow | a3c.py:83-86 | int(str(n)) == n. |
| CheckpointNames.ShowInjective | a3c.py:86-106 | str(a) == str(b) exactly when a == b. |
| CheckpointNames.Split | a3c.py:81 | str.split gives at least one part, no part contains the separator, and more than one part only if the separator occurs. |
| CheckpointNames.SplitNoSep | a3c.py:81 | A string without the separator splits into itself. |
| CheckpointNames.SplitFirst | a3c.py:81 | The text before the first separator is the first part. |
| CheckpointNames.SplitLast | a3c.py:81 | The text after the last separator is the last part. |
| CheckpointNames.WallTimeFileName | a3c.py:86-106 | The name is the directory, then "/wall_t.", then str(step). |
| CheckpointNames.WallTimeFileNameInjective | a3c.py:86-106 | Save and restore name the same file for the same step and different files for different steps. |
| CheckpointNames.StepFromPathAsWritten | a3c.py:81-83 | As written, the step is read only when the path contains a '-'. |
| CheckpointNames.StepFromPath | a3c.py:81-83 | The corrected reading succeeds only when the path contains a '-'. |
| CheckpointNames.ShowHasNoDash | a3c.py:110 | The step suffix the saver appends contains no '-'. |
| CheckpointNames.StepFromPathRoundTrip | a3c.py:81-110 | For every checkpoint directory, the corrected reading of the saved path gives back the saved step. |
| CheckpointNames.StepFromPathAsWrittenRoundTrip | a3c.py:81-110 | As written, the round trip holds when the checkpoint directory contains no '-'. |
| CheckpointNames.StepFromPathAsWrittenFails | a3c.py:81-110 | As written, a checkpoint directory with one '-' makes the step read fail where the corrected reading recovers the step. |
| CheckpointNames.StepFromPathAsWrittenReadsDirectory | a3c.py:81-110 | As written, in a directory "a-k-b" the step read from any saved path is k, the number in the directory name. |
| A3C.AddIntervalKeepsMultiple | a3c.py:127 | Advancing the boundary by one interval keeps it a multiple of the interval. |
| A3C.NextSaveAfterRestore | a3c.py:89 | The boundary after a restore is a multiple of the interval, strictly above the restored step and at most one interval above it. |
| A3C.NextSaveIsLeast | a3c.py:89 | No multiple of the interval above the restored step is smaller. |
| A3C.ResumeFrom | a3c.py:84-89 | Given the outcome of reading the step: a failed read is a bad checkpoint path. Otherwise it succeeds exactly when that step's wall-time file exists and the interval is positive; a zero interval is the division by zero. On success the step is the read one, the wall time is what its file holds, and the next save is the least multiple of the interval above the step, `NextSaveAfterRestore(step, interval)`. |
| A3C.Restore | a3c.py:77-94 | Without a checkpoint path it gives step 0, wall time 0.0 and next save at one interval (0 for a zero interval). Otherwise the step is read as written, from the token after the first '-'. The restore succeeds exactly when that read succeeds, the step's wall-time file exists and the interval is positive. A failed read is a bad checkpoint path. On success the wall time is what that step's file holds and the next save is the least multiple of the interval above the step, `NextSaveAfterRestore(step, interval)`. |
| A3C.RestoreIntended | a3c.py:77-94 | The same restore with the intended step reading (the number after the last '-'): it succeeds exactly when that read succeeds, the wall-time file exists and the interval is positive. |
| A3C.RestoreAfterSave | a3c.py:77-110 | In a checkpoint directory without '-', a restore after a save at step s gives back s, the wall time written for s and the next boundary after s. With a zero interval it fails with the division by zero. |
| A3C.RestoreFailsOnDashedDir | a3c.py:77-110 | In a checkpoint directory with one '-', a restore after any save fails reading the step. |
| A3C.RestoreReadsDirectoryStep | a3c.py:77-110 | In a directory "a-k-b" (k a number, no other '-'), a restore after a save at any step resumes without error at step k, with k's wall time and the boundary after k, whenever a wall-time file for k exists. |
| A3C.RestoreIntendedAfterSave | a3c.py:77-110 | With the intended reading, a restore after a save at step s gives back s, its wall time and the next boundary in every directory (the division by zero for a zero interval aside). |
| A3C.Trainer.constructor | a3c.py:77-94 | The globals hold the restored values and no stop is requested. With a positive interval the next save lies above the step; the boundary invariant holds, and a zero interval leaves the boundary at 0. |
| A3C.Trainer.SaveData | a3c.py:97-112 | Writes the elapsed time under the current step's wall-time name and records the saver's path for that step; the scheduling globals are unchanged. |
| A3C.Trainer.TrainStep | a3c.py:124-136 | The save happens exactly on worker 0 past the boundary, before the exit check, and advances the boundary by one interval (by nothing for a zero interval, so worker 0 then saves on every iteration past step 0). The loop goes on exactly when no stop is requested and the step is within the horizon. The step grows by exactly the delta when it goes on and is otherwise unchanged. The stop flag is never cleared. |
| A3C.Trainer.RequestStop | a3c.py:139-142 | The stop flag is set. |
| A3C.Launch | a3c.py:77-94 | The start-up fails exactly when the restore as written fails, and with its error. Otherwise the trainer holds the restored step, wall time and boundary, the given directory, interval, horizon, files and checkpoint path, and no stop is requested. |
| A3C.SaveThenRestart | a3c.py:77-110 | The save writes the wall-time file and records the saver path for the current step, leaving the step, boundary, stop flag and wall time unchanged. The restart then fails exactly when the restore as written fails; on success the new trainer has the same configuration and no stop request. In a directory without '-' it resumes at the saved step, with the saved wall time and the boundary after it, or fails with the division by zero for a zero interval. |

Specification functions. These are definitions without a contract of their
own; the methods above are proved against them, and the lemmas above state
their properties:

- `Emulator.RewardUpTo` (game_state.py:311-331): the summed reward of the first j acts.
- `Emulator.SkipOutcome` (game_state.py:306-338): the history, reward and flag of a frame skip. Its properties are `SkipOutcomeShape`, `SkipStopsAtSecondOfFour` and `SkipWithoutGameOver`.
- `Histogram.Occurrences` (game_state.py:139-140): how often a room was logged. See `OccurrencesAppend` and `OccurrencesZero`.
- `PseudoCount.Hits` (game_state.py:115-120): how many logged images hit a (slot, bucket) cell. See `HitsAppend` and `HitsPerSlot`.
- `GameStateModel.NoOpBound` (game_state.py:267-268): the largest no-op count reset can draw.
- `GameStateModel.GameState.AdvanceRun` (game_state.py:306-338): the run part after process's frame skip. See `TerminalShortCircuit`, `StackedStep` and `ShiftKeepsDepth`.
- `GameStateModel.GameState.CountImage` (game_state.py:106-132): the density model after one image.
- `GameStateModel.GameState.PscRewardOf` (game_state.py:111-122): the pseudo-count reward of the pre-increment counts. See `SameFrameTwice`.
- `GameStateModel.GameState.VisitRoom` (game_state.py:135-144): the room part after a visit. See `VisitRoomFlagsFirstVisit`.
- `GameStateModel.GameState.AfterPseudoCount` (game_state.py:237-249): the state after pseudo_count.
- `GameStateModel.GameState.AfterCountStep` (game_state.py:340-348): the state after the end of process.
- `GameStateModel.GameState.AfterProcess` (game_state.py:298-348): the state after process. See `ProcessActsAtMostF` and `ProcessCountsOnce`.
- `GameStateModel.GameState.AfterBegin` (game_state.py:279-296): the state after the end of reset.
- `GameStateModel.GameState.AfterReset` (game_state.py:260-296): the state after reset. See `ResetStartsEpisode`.
- `CheckpointNames.SaverPath` (a3c.py:110): the path the saver records for a step. See `StepFromPathRoundTrip` and `StepFromPathAsWrittenFails`.
- `A3C.NoCheckpoint` (a3c.py:78): no checkpoint state, or one without a model_checkpoint_path.

## Left out

- The gym backend (`options.use_gym`). Only the ALE branch is modelled.
- Emulator I/O. The ALE calls (`act`, `game_over`, `getScreenRGB`, `getRAM`, `lives`), display setup, `_seed` and the screen recording are folded into the oracle `emu`.
- Image processing. Colour maximising or averaging, grey conversion, `cv2.resize`, cropping and `/255.0` normalisation are part of the oracle's opaque frame, or the opaque `downsize`.
- The colour-maximising path depends on whether the previous act captured a screen. The oracle is indexed by the input history only, so it does not capture that dependency.
- The pseudo-count reward formula (`np.prod`, `math.pow`, the constants α, β and the power) is the uninterpreted `bonus` of the pre-increment counts and n.
- The table is float32 after `psc_set_psc_info` and float64 otherwise; counts are modelled as exact naturals.
- `PseudoCount.Quantise` takes the floor of the exact product x·maxval/255. The source's float product could round differently at bucket boundaries.
- `GameStateModel.GameState.PscSetPscInfo` requires a snapshot with n != 0 to have the k x (maxval+1) shape. The source accepts any array: one too small raises when the table is indexed, and a larger one is used silently.
- `GameStateModel.GameState.UpdateMontezumaRooms` requires every room byte to be below 24, via `ConfigOk`. The source raises an IndexError for a larger byte, which would end the worker.
- The density model's logging every `score_log_interval * 10` images (game_state.py:125-130) and the room print (game_state.py:141) are not modelled. So is a zero log interval, which would make that modulus raise.
- The random no-op count in reset is a parameter bounded by `no_op_max // frames_skip_in_ale`, not drawn.
- `GameStateModel.GameState.constructor` does not call reset; `GameStateModel.NewGameState` does, right after construction. This is the same order as the end of `__init__`.
- The lives are Python floats in the source and integers here.
- Writing screen images (`cv2.imwrite`), `os.makedirs` and the `set_record_screen_dir` and `close_record_screen_dir` calls are file I/O. The `recording` option stands for thread 0 with a screen directory; only the episode and image counters are modelled.
- The reward ratio uses the counts read before the increment (game_state.py:114-115); the model states this explicitly in `PscAddImage` and `PscRewardOf`.
- TensorFlow: the networks, session, `Saver.save` and `restore`, summaries and the optimiser. The saver's recorded path is modelled only as the string `SaverPath` it produces.
- File contents: the wall-time file's text is modelled as the real number it holds (`str`/`float` of a float).
- `A3C.Trainer.TrainStep` takes the worker's step delta as a `nat`, so `global_t` never decreases. The worker's `process` is not modelled.
- Threads, `join` and the unsynchronised `global_t +=` are not modelled. Each Trainer method is one step of one worker.
- `log_uniform` and the learning-rate setup are not modelled.
- Saving only on the best average score, and persisting the novelty snapshot, are not modelled.
- The `os.mkdir` of the checkpoint directory is not modelled.
- `CheckpointNames.ParseNat` accepts only non-empty strings of ASCII digits. Python's `int` also accepts surrounding whitespace, a leading '+' or '-', '_' between digits and non-ASCII decimal digits. A token read from a saver path never takes those forms unless the checkpoint directory contains '-'.
- `GameStateModel.GoodOptions` excludes three configurations the source accepts:
  - `frames_skip_in_gs == 0`. Unstacked, `range(-1)` makes the step act like a single frame; stacked, `np.stack` of no frames raises.
  - `no_op_max > 0` with `frames_skip_in_ale == 0`, where reset divides by zero (game_state.py:268).
  - `psc_maxval > 255`, where `np.uint8` at game_state.py:242 wraps buckets above 255 and the indexing then uses the wrapped value.
- `GameStateModel.GameState.PscAddImage` succeeds only on an image of exactly k slots. numpy's broadcasting of `[range(k), psc_image]` (game_state.py:114-120) would also accept a one-slot image against k rows, or a longer image against a one-row table. `pseudo_count` always passes exactly k slots (game_state.py:240), so process and reset are unaffected.
- `A3C.NextSaveAfterRestore` requires a positive interval. `A3C.ResumeFrom` returns the division-by-zero error before reaching it, and a fresh start with a zero interval is modelled (boundary 0).

## Findings

| source | as written | input that shows it | evidently intended | confidence | as-written member | corrected member |
|---|---|---|---|---|---|---|
| a3c.py:81-83 | The step is `int(tokens[1])` of `path.split("-")`, the token after the FIRST '-' | checkpoint_dir "ckpt-a": the saver's path "ckpt-a/checkpoint-1000" gives tokens[1] == "a/checkpoint", and `int` raises | The number after the LAST '-', the suffix the saver appends to `checkpoint_dir + '/checkpoint'` | high (proved for every directory with one '-'; for a directory "a-k-b" the restore silently resumes at step k, see A3C.RestoreReadsDirectoryStep; not executed) | A3C.RestoreFailsOnDashedDir | A3C.RestoreIntendedAfterSave |
