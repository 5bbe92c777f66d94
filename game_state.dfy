/**
 * GameState (game_state.py:18-352): one worker's view of the emulator. It
 * turns emulator steps into stacked frames with frame skip, keeps the episode
 * bookkeeping, the pseudo-count density model and the Montezuma's Revenge
 * room histogram.
 */
module GameStateModel {
  import opened Wrappers
  import opened Histogram
  import opened PseudoCount
  import opened Emulator

  /** Length of the room histogram (game_state.py:39). */
  const RoomCount: nat := 24
  /** Depth of the frame stack built by reset (game_state.py:283). */
  const StackDepth: nat := 4

  /** The options GameState reads. `montezuma` stands for the rom / gym_env test of
      game_state.py:246, `recording` for thread_index == 0 with a screen directory. */
  datatype Options = Options(
    framesSkipInGs: nat, stackFramesInGs: bool, framesSkipInAle: nat, noOpMax: nat,
    pscUse: bool, pscFrsize: nat, pscMaxval: nat, montezuma: bool, recording: bool)

  /** Configurations GameState runs with: at least one frame per step, a non-zero ALE frame
      skip when no-ops are drawn, and buckets that fit a uint8. */
  type GoodOptions = o: Options | o.framesSkipInGs >= 1 && (o.noOpMax > 0 ==> o.framesSkipInAle >= 1) &&
    o.pscMaxval <= 255
    witness Options(1, false, 1, 0, false, 0, 0, false, false)

  /** Facts about the emulator and the downsizing the model relies on. */
  ghost predicate ConfigOk(opts: GoodOptions, emu: Oracle, downsize: Frame -> seq<byte>)
  {
    (opts.pscUse ==> forall f :: |downsize(f)| == opts.pscFrsize * opts.pscFrsize) &&
    (opts.montezuma ==> forall h :: 0 <= emu(h).room < RoomCount)
  }

  /** The largest number of random no-ops reset may perform (game_state.py:267-268). */
  function NoOpBound(opts: GoodOptions): nat
  {
    if opts.noOpMax > 0 then opts.noOpMax / opts.framesSkipInAle else 0
  }

  /** A k x (maxval+1) table given as rows. */
  predicate TableShape(t: seq<seq<nat>>, k: nat, maxval: nat)
  {
    |t| == k && forall i :: 0 <= i < k ==> |t[i]| == maxval + 1
  }

  function Zeros(k: nat, maxval: nat): (t: seq<seq<nat>>)
    ensures TableShape(t, k, maxval)
  {
    seq(k, _ => seq(maxval + 1, _ => 0))
  }

  /** The counts at an image's buckets, from an installed table and the images added since. */
  function LoggedCounts(base: seq<seq<nat>>, log: seq<seq<byte>>, img: seq<byte>): (c: seq<nat>)
    ensures |c| == |img|
  {
    seq(|img|, i requires 0 <= i < |img| =>
      (if i < |base| && img[i] as int < |base[i]| then base[i][img[i]] else 0) + Hits(log, i, img[i] as int))
  }

  /** s_t[:, :, 1:] with x appended (game_state.py:335). */
  function ShiftIn<T>(s: seq<T>, x: T): (r: seq<T>)
    ensures |r| == if s == [] then 1 else |s|
    ensures r[|r| - 1] == x && forall i :: 0 <= i < |r| - 1 ==> r[i] == s[i + 1]
  {
    if s == [] then [x] else s[1..] + [x]
  }

  /** The persisted state of the density model. */
  datatype PscInfo = PscInfo(pscN: nat, pscVcount: seq<seq<nat>>)

  /** The emulator history, the last step's reward and flag, and the two stacks. */
  datatype RunView = RunView(history: seq<Input>, terminal: bool, reward: int, sT: seq<Frame>, sT1: Option<seq<Frame>>)

  /** The episode bookkeeping: lives, the episode and image counters, the last pseudo-count reward. */
  datatype EpisodeView = EpisodeView(lives: int, initialLives: int, episode: nat, stepNo: nat, pscReward: real)

  /** The room bookkeeping: every room read so far, the current and previous room, the new room. */
  datatype RoomView = RoomView(log: seq<int>, roomNo: int, prevRoomNo: int, newRoom: int)

  /** The density model: the installed table and counter, every image added since, the counter. */
  datatype DensityView = DensityView(base: seq<seq<nat>>, baseN: nat, log: seq<seq<byte>>, n: nat)

  /**
   * The state of a GameState apart from the two count arrays, whose contents
   * the room and image logs determine (see GameState.Valid).
   */
  datatype GameView = GameView(run: RunView, ep: EpisodeView, rooms: RoomView, psc: DensityView)

  class GameState {
    const opts: GoodOptions
    const emu: Oracle
    /** cv2.resize of a processed frame to psc_frsize x psc_frsize pixels (game_state.py:240-241). */
    const downsize: Frame -> seq<byte>
    /** The floating-point pseudo-count reward as a function of the pre-increment counts and n
        (game_state.py:113-118). */
    const bonus: (seq<nat>, nat) -> real
    /** The minimal action set; process maps an action index through it. */
    const realActions: seq<int>
    const pscK: nat

    var history: seq<Input>
    var terminal: bool
    var reward: int
    var sT: seq<Frame>
    /** The next stack; None until the first process. */
    var sT1: Option<seq<Frame>>
    var lives: int
    var initialLives: int
    var episode: nat
    var stepNo: nat
    var pscReward: real
    var rooms: array<nat>
    var roomNo: int
    var prevRoomNo: int
    var newRoom: int
    var pscVcount: array2<nat>
    var pscN: nat

    /** Every room value read so far. */
    ghost var roomLog: seq<int>
    /** The table and counter installed by the constructor or the last psc_set_psc_info. */
    ghost var pscBase: seq<seq<nat>>
    ghost var pscBaseN: nat
    /** Every quantised image added since then. */
    ghost var pscLog: seq<seq<byte>>

    ghost function RunPart(): RunView
      reads this`history, this`terminal, this`reward, this`sT, this`sT1
    {
      RunView(history, terminal, reward, sT, sT1)
    }

    ghost function EpisodePart(): EpisodeView
      reads this`lives, this`initialLives, this`episode, this`stepNo, this`pscReward
    {
      EpisodeView(lives, initialLives, episode, stepNo, pscReward)
    }

    ghost function RoomPart(): RoomView
      reads this`roomLog, this`roomNo, this`prevRoomNo, this`newRoom
    {
      RoomView(roomLog, roomNo, prevRoomNo, newRoom)
    }

    ghost function DensityPart(): DensityView
      reads this`pscBase, this`pscBaseN, this`pscLog, this`pscN
    {
      DensityView(pscBase, pscBaseN, pscLog, pscN)
    }

    ghost function View(): GameView
      reads this`history, this`terminal, this`reward, this`sT, this`sT1, this`lives, this`initialLives,
            this`episode, this`stepNo, this`pscReward, this`roomLog, this`roomNo, this`prevRoomNo,
            this`newRoom, this`pscBase, this`pscBaseN, this`pscLog, this`pscN
    {
      GameView(RunPart(), EpisodePart(), RoomPart(), DensityPart())
    }

    /** An image the count table can be indexed with: k slots, each a bucket 0..maxval. */
    predicate InBuckets(img: seq<byte>)
    {
      |img| == pscK && forall s :: 0 <= s < |img| ==> img[s] as int <= opts.pscMaxval
    }

    predicate DepthOk(s: seq<Frame>)
    {
      |s| == StackDepth || (opts.stackFramesInGs && |s| == opts.framesSkipInGs)
    }

    /** The room histogram counts the room log. */
    ghost predicate RoomsOk()
      reads this`rooms, this`roomLog, rooms
    {
      rooms.Length == RoomCount && forall r :: 0 <= r < RoomCount ==> rooms[r] == Occurrences(roomLog, r)
    }

    /** The count table is the installed table plus the hits of every image added since. */
    ghost predicate TableOk()
      reads this`pscVcount, this`pscBase, this`pscBaseN, this`pscLog, this`pscN, pscVcount
    {
      pscVcount.Length0 == pscK && pscVcount.Length1 == opts.pscMaxval + 1 &&
      TableShape(pscBase, pscK, opts.pscMaxval) &&
      (forall m :: 0 <= m < |pscLog| ==> InBuckets(pscLog[m])) &&
      (forall i, j :: 0 <= i < pscK && 0 <= j <= opts.pscMaxval ==>
         pscVcount[i, j] == pscBase[i][j] + Hits(pscLog, i, j)) &&
      pscN == pscBaseN + |pscLog|
    }

    /** The stacks have the configured depth. */
    predicate StacksOk()
      reads this`sT, this`sT1
    {
      DepthOk(sT) && (sT1.Some? ==> DepthOk(sT1.value))
    }

    ghost predicate Valid()
      reads this`rooms, this`roomLog, this`pscVcount, this`pscBase, this`pscBaseN, this`pscLog,
            this`pscN, this`sT, this`sT1, rooms, pscVcount
    {
      ConfigOk(opts, emu, downsize) && pscK == opts.pscFrsize * opts.pscFrsize &&
      RoomsOk() && TableOk() && StacksOk()
    }

    /** The counts at the image's buckets, read before any increment (game_state.py:114). */
    function Counts(img: seq<byte>): (c: seq<nat>)
      reads this`pscVcount, pscVcount
      requires pscVcount.Length0 == pscK && pscVcount.Length1 == opts.pscMaxval + 1 && InBuckets(img)
      ensures |c| == pscK
    {
      var table := pscVcount;
      seq(pscK, i requires 0 <= i < pscK reads table => table[i, img[i]])
    }

    /** The bucket image pseudo_count feeds to the density model for frame x (game_state.py:240-242). */
    function PscImageOf(x: Frame): (img: seq<byte>)
      ensures |img| == |downsize(x)| && forall s :: 0 <= s < |img| ==> img[s] as int <= opts.pscMaxval
    {
      QuantiseImage(downsize(x), opts.pscMaxval)
    }

    /*
     * The state transitions, as functions of the view.
     */

    /** The view __init__ hands to its closing reset (game_state.py:37-43, 91-95): episode 1,
        room 1, no new room, a zero table; the stack is a placeholder reset overwrites. */
    ghost function Fresh(): GameView
    {
      GameView(RunView([], false, 0, Repeat(emu([]).frame, StackDepth), None), EpisodeView(0, 0, 1, 0, 0.0),
               RoomView([], 1, 1, -1), DensityView(Zeros(pscK, opts.pscMaxval), 0, [], 0))
    }

    /**
     * The mode-dependent part of process (game_state.py:306-338) with real
     * action a: once terminal, the stacked mode and the single-frame mode do
     * not act; otherwise the frame skip runs.
     */
    ghost function AdvanceRun(r: RunView, a: int): RunView
    {
      var n := opts.framesSkipInGs;
      if r.terminal && (opts.stackFramesInGs || n == 1) then
        var x := emu(r.history).frame;
        r.(reward := 0, sT1 := Some(if opts.stackFramesInGs then Repeat(x, n) else ShiftIn(r.sT, x)))
      else
        var o := SkipOutcome(emu, r.history, a, n);
        r.(history := o.history, reward := o.reward, terminal := o.terminal,
           sT1 := Some(if opts.stackFramesInGs then SkipFrames(emu, r.history, a, n)
                       else ShiftIn(r.sT, emu(o.history).frame)))
    }

    /** psc_add_image (game_state.py:106-132) on frame x's bucket image: logged, n gains one. */
    ghost function CountImage(d: DensityView, x: Frame): DensityView
    {
      d.(log := d.log + [PscImageOf(x)], n := d.n + 1)
    }

    /** update_montezuma_rooms (game_state.py:135-144) in room `room`: logged, becomes room_no,
        and is the new room on its first visit. */
    function VisitRoom(v: RoomView, room: int): RoomView
    {
      RoomView(v.log + [room], room, v.roomNo, if room in v.log then v.newRoom else room)
    }

    /** A visit shifts room_no into prev_room_no and flags the room as new exactly when it is
        its first visit, i.e. when its count in the log becomes 1. */
    lemma VisitRoomFlagsFirstVisit(v: RoomView, room: int)
      ensures var w := VisitRoom(v, room);
        w.prevRoomNo == v.roomNo && w.roomNo == room &&
        Occurrences(w.log, room) == Occurrences(v.log, room) + 1 &&
        (Occurrences(w.log, room) == 1 <==> room !in v.log) &&
        (room !in v.log ==> w.newRoom == room) && (room in v.log ==> w.newRoom == v.newRoom)
    {
      OccurrencesAppend(v.log, room, room);
      OccurrencesZero(v.log, room);
    }

    /**
     * pseudo_count (game_state.py:237-249) on frame x: the density model logs
     * the frame's bucket image, and in Montezuma's Revenge the room now in RAM
     * is visited.
     */
    ghost function AfterPseudoCount(v: GameView, x: Frame): GameView
    {
      v.(rooms := if opts.montezuma then VisitRoom(v.rooms, emu(v.run.history).room) else v.rooms,
         psc := if opts.pscUse then CountImage(v.psc, x) else v.psc)
    }

    /** The reward pseudo_count returns for frame x: 0 without a density model or with n == 0,
        else the bonus of the counts before the increment (game_state.py:111-122). */
    ghost function PscRewardOf(d: DensityView, x: Frame): real
    {
      if opts.pscUse && d.n > 0 then bonus(LoggedCounts(d.base, d.log, PscImageOf(x)), d.n) else 0.0
    }

    /** The end of process (game_state.py:340-348) on frame x: pseudo_count, its reward stored,
        lives read, and the image counter of a recorded episode advanced. */
    ghost function AfterCountStep(v: GameView, x: Frame): GameView
    {
      var o := emu(v.run.history);
      AfterPseudoCount(v, x).(
        ep := v.ep.(pscReward := PscRewardOf(v.psc, x), lives := o.lives,
                    stepNo := if opts.recording then v.ep.stepNo + 1 else v.ep.stepNo))
    }

    /** process (game_state.py:298-348): the frame skip, then the end of the step on its last frame. */
    ghost function AfterProcess(v: GameView, a: int): GameView
    {
      var run := AdvanceRun(v.run, a);
      AfterCountStep(v.(run := run), emu(run.history).frame)
    }

    /** The history reset leaves: restart, noOps no-ops, one act with action 0. */
    function RestartHistory(h: seq<Input>, noOps: nat): (r: seq<Input>)
      ensures |r| == |h| + noOps + 2 && r[..|h|] == h && r[|h|] == ResetGame
      ensures forall i :: |h| < i < |r| ==> r[i] == Act(0)
    {
      h + [ResetGame] + Repeat(Act(0), noOps) + [Act(0)]
    }

    /** The end of reset (game_state.py:280-296) on the frame x the restart ended with:
        pseudo_count on it, a stack of four copies, lives read, a recorded episode counted. */
    ghost function AfterBegin(v: GameView, x: Frame): GameView
    {
      var o := emu(v.run.history);
      var v1 := AfterPseudoCount(v, x);
      GameView(v1.run.(reward := 0, sT := Repeat(x, StackDepth)),
               v.ep.(lives := o.lives, initialLives := o.lives,
                     episode := if opts.recording then v.ep.episode + 1 else v.ep.episode,
                     stepNo := if opts.recording then 1 else v.ep.stepNo),
               v1.rooms.(newRoom := -1), v1.psc)
    }

    /** reset (game_state.py:260-296): restart, noOps no-ops and one frame acting with
        action 0, the flag read from the emulator, then the start of the episode. */
    ghost function AfterReset(v: GameView, noOps: nat): GameView
    {
      var h := RestartHistory(v.run.history, noOps);
      AfterBegin(v.(run := v.run.(history := h, terminal := emu(h).gameOver)), emu(h).frame)
    }

    /*
     * Properties of the transitions.
     */

    /** reset leaves a stack of four copies of its frame, reward 0 and no new room; the flag is the
        emulator's, lives are read, and a recorded episode starts its image counter at 1. */
    lemma ResetStartsEpisode(v: GameView, noOps: nat)
      ensures var w := AfterReset(v, noOps); var h := RestartHistory(v.run.history, noOps);
        w.run.history == h && w.run.terminal == emu(h).gameOver && w.run.reward == 0 &&
        |w.run.sT| == StackDepth && (forall i :: 0 <= i < StackDepth ==> w.run.sT[i] == emu(h).frame) &&
        w.rooms.newRoom == -1 && w.ep.lives == emu(h).lives && w.ep.initialLives == emu(h).lives &&
        (opts.recording ==> w.ep.episode == v.ep.episode + 1 && w.ep.stepNo == 1)
    {
    }

    /** process extends the history by at most F acts and keeps what was there. */
    lemma ProcessActsAtMostF(v: GameView, a: int)
      ensures var w := AfterProcess(v, a);
        |v.run.history| <= |w.run.history| <= |v.run.history| + opts.framesSkipInGs &&
        w.run.history[..|v.run.history|] == v.run.history
    {
      SkipOutcomeShape(emu, v.run.history, a, opts.framesSkipInGs);
    }

    /**
     * Once terminal, process leaves the emulator alone exactly in the stacked
     * mode and with a single frame per step; with F >= 2 action-only steps the
     * unstacked mode acts again although the game is over.
     */
    lemma TerminalShortCircuit(v: GameView, a: int)
      requires v.run.terminal
      ensures AfterProcess(v, a).run.history == v.run.history <==>
        (opts.stackFramesInGs || opts.framesSkipInGs == 1)
      ensures opts.stackFramesInGs || opts.framesSkipInGs == 1 ==>
        AfterProcess(v, a).run.reward == 0 && AfterProcess(v, a).run.terminal
    {
      SkipOutcomeShape(emu, v.run.history, a, opts.framesSkipInGs);
    }

    /**
     * The stacked mode yields exactly F frames, the last being the current
     * screen. Once terminal every slot is that screen and the reward is 0;
     * otherwise the reward sums the acts up to and including the first game
     * over, and every slot from that game over on repeats the last frame.
     */
    lemma StackedStep(v: GameView, a: int)
      requires opts.stackFramesInGs
      ensures var w := AfterProcess(v, a); var n := opts.framesSkipInGs;
        w.run.sT1.Some? && |w.run.sT1.value| == n && w.run.sT1.value[n - 1] == emu(w.run.history).frame
      ensures var w := AfterProcess(v, a); var n := opts.framesSkipInGs; var m := FirstGameOver(emu, v.run.history, a, n);
        !v.run.terminal ==>
          w.run.history == Acts(v.run.history, a, if m < n then m + 1 else n) &&
          w.run.reward == RewardUpTo(emu, v.run.history, a, |w.run.history| - |v.run.history|) &&
          (w.run.terminal <==> exists i :: 0 <= i < n && ObsAt(emu, v.run.history, a, i).gameOver) &&
          forall j :: m <= j < n ==> w.run.sT1.value[j] == w.run.sT1.value[n - 1]
      ensures var w := AfterProcess(v, a); var n := opts.framesSkipInGs;
        v.run.terminal ==> w.run.reward == 0 && forall j :: 0 <= j < n ==> w.run.sT1.value[j] == emu(v.run.history).frame
    {
      if !v.run.terminal {
        SkipOutcomeShape(emu, v.run.history, a, opts.framesSkipInGs);
        SkipFramesFreeze(emu, v.run.history, a, opts.framesSkipInGs);
      }
    }

    /** Without stacking, the next stack drops the oldest frame and appends the step's last
        screen, so a four-deep stack stays four deep. */
    lemma ShiftKeepsDepth(v: GameView, a: int)
      requires !opts.stackFramesInGs && |v.run.sT| == StackDepth
      ensures var w := AfterProcess(v, a); var s := w.run.sT1.value;
        w.run.sT1.Some? && |s| == StackDepth && s[..StackDepth - 1] == v.run.sT[1..] &&
        s[StackDepth - 1] == emu(w.run.history).frame
    {
      var w := AfterProcess(v, a);
      var s := w.run.sT1.value;
      assert s[..StackDepth - 1] == v.run.sT[1..];
    }

    /** process feeds the density model exactly one image, that of its last screen, and
        with an empty model its pseudo-count reward is 0. */
    lemma ProcessCountsOnce(v: GameView, a: int)
      ensures var w := AfterProcess(v, a); var x := emu(w.run.history).frame;
        w.psc.base == v.psc.base && w.psc.baseN == v.psc.baseN &&
        (opts.pscUse ==> w.psc.n == v.psc.n + 1 && w.psc.log == v.psc.log + [PscImageOf(x)]) &&
        (!opts.pscUse ==> w.psc == v.psc && w.ep.pscReward == 0.0) &&
        (v.psc.n == 0 ==> w.ep.pscReward == 0.0)
    {
    }

    /**
     * Seeing the same frame twice in a row, the second reward is the bonus of
     * counts each one higher than the first's: the first image hit exactly
     * the buckets the second one reads. On an empty model the first reward is 0.
     */
    lemma SameFrameTwice(d: DensityView, x: Frame)
      requires opts.pscUse
      ensures var c := LoggedCounts(d.base, d.log, PscImageOf(x));
        PscRewardOf(CountImage(d, x), x) == bonus(seq(|c|, i requires 0 <= i < |c| => c[i] + 1), d.n + 1)
      ensures d.n == 0 ==> PscRewardOf(d, x) == 0.0
    {
      var img := PscImageOf(x);
      var c := LoggedCounts(d.base, d.log, img);
      var c' := LoggedCounts(d.base, d.log + [img], img);
      forall i | 0 <= i < |img|
        ensures c'[i] == c[i] + 1
      {
        HitsAppend(d.log, img, i, img[i] as int);
      }
      assert c' == seq(|c|, i requires 0 <= i < |c| => c[i] + 1);
    }

    /*
     * The operations.
     */

    /**
     * The attribute setup of __init__ (game_state.py:19-95): zero table and
     * histogram, room 1, episode 1; the closing reset is NewGameState's.
     */
    constructor (opts: GoodOptions, emu: Oracle, downsize: Frame -> seq<byte>, bonus: (seq<nat>, nat) -> real,
                 realActions: seq<int>)
      requires ConfigOk(opts, emu, downsize)
      ensures Valid() && fresh(rooms) && fresh(pscVcount)
      ensures this.opts == opts && this.emu == emu && this.downsize == downsize && this.bonus == bonus
      ensures this.realActions == realActions
      ensures View() == Fresh()
    {
      this.opts, this.emu, this.downsize, this.bonus := opts, emu, downsize, bonus;
      this.realActions := realActions;
      pscK := opts.pscFrsize * opts.pscFrsize;
      history := [];
      terminal, reward := false, 0;
      sT := Repeat(emu([]).frame, StackDepth);
      sT1 := None;
      lives, initialLives := 0, 0;
      episode, stepNo := 1, 0;
      pscReward := 0.0;
      rooms := new nat[RoomCount](_ => 0);
      roomNo, prevRoomNo, newRoom := 1, 1, -1;
      pscVcount := new nat[opts.pscFrsize * opts.pscFrsize, opts.pscMaxval + 1]((_, _) => 0);
      pscN := 0;
      roomLog := [];
      pscBase, pscBaseN, pscLog := Zeros(opts.pscFrsize * opts.pscFrsize, opts.pscMaxval), 0, [];
    }

    /**
     * psc_set_psc_info (game_state.py:100-103): a snapshot with n == 0 changes
     * nothing, any other replaces the table (a fresh copy) and the counter.
     */
    method PscSetPscInfo(info: PscInfo)
      requires Valid()
      requires info.pscN != 0 ==> TableShape(info.pscVcount, pscK, opts.pscMaxval)
      modifies this`pscVcount, this`pscN, this`pscBase, this`pscBaseN, this`pscLog
      ensures Valid()
      ensures info.pscN == 0 ==> pscVcount == old(pscVcount) && DensityPart() == old(DensityPart())
      ensures info.pscN != 0 ==>
        fresh(pscVcount) && DensityPart() == DensityView(info.pscVcount, info.pscN, [], info.pscN) &&
        forall i, j :: 0 <= i < pscK && 0 <= j <= opts.pscMaxval ==> pscVcount[i, j] == info.pscVcount[i][j]
    {
      if info.pscN != 0 {
        var table := info.pscVcount;
        pscVcount := new nat[pscK, opts.pscMaxval + 1](
          (i, j) requires 0 <= i < pscK && 0 <= j <= opts.pscMaxval => table[i][j]);
        pscN := info.pscN;
        pscBase, pscBaseN, pscLog := table, info.pscN, [];
      }
    }

    /** The in-place `+= 1.0` at the image's buckets (game_state.py:115, 120). */
    method Increment(img: seq<byte>)
      requires pscVcount.Length0 == pscK && pscVcount.Length1 == opts.pscMaxval + 1 && InBuckets(img)
      modifies pscVcount
      ensures forall i, j :: 0 <= i < pscK && 0 <= j <= opts.pscMaxval ==>
        pscVcount[i, j] == old(pscVcount[i, j]) + (if j == img[i] as int then 1 else 0)
    {
      var s := 0;
      while s < pscK
        invariant 0 <= s <= pscK
        invariant forall i, j :: 0 <= i < pscK && 0 <= j <= opts.pscMaxval ==>
          pscVcount[i, j] == old(pscVcount[i, j]) + (if i < s && j == img[i] as int then 1 else 0)
      {
        pscVcount[s, img[s]] := pscVcount[s, img[s]] + 1;
        s := s + 1;
      }
    }

    /**
     * psc_add_image (game_state.py:106-132): a non-uint8 image is fatal, an image
     * the table cannot be indexed with raises; otherwise every slot's bucket
     * gains one, n gains one, and the reward is 0 for n == 0 and otherwise the
     * bonus of the counts read before the increment.
     */
    method PscAddImage(image: PscImage) returns (res: Result<real, PscError>)
      requires Valid()
      modifies pscVcount, this`pscN, this`pscLog
      ensures Valid()
      ensures image.OtherDType? ==> res == Failure(DTypeError)
      ensures image.UInt8? ==> (res.Success? <==> InBuckets(image.pixels))
      ensures res.Failure? ==> unchanged(pscVcount) && pscN == old(pscN) && pscLog == old(pscLog)
      ensures res.Success? ==>
        pscN == old(pscN) + 1 && pscLog == old(pscLog) + [image.pixels] &&
        (forall i, j :: 0 <= i < pscK && 0 <= j <= opts.pscMaxval ==>
           pscVcount[i, j] == old(pscVcount[i, j]) + (if j == image.pixels[i] as int then 1 else 0)) &&
        res.value == (if old(pscN) == 0 then 0.0 else bonus(old(Counts(image.pixels)), old(pscN)))
    {
      match image
      case OtherDType(_) =>
        return Failure(DTypeError);
      case UInt8(img) =>
        if !InBuckets(img) {
          return Failure(IndexError);
        }
        var n := pscN;
        var r := 0.0;
        if n > 0 {
          var pre := Counts(img);
          Increment(img);
          r := bonus(pre, n);
        } else {
          Increment(img);
        }
        pscN := pscN + 1;
        pscLog := pscLog + [img];
        forall i, j | 0 <= i < pscK && 0 <= j <= opts.pscMaxval
          ensures Hits(pscLog, i, j) == Hits(old(pscLog), i, j) + (if j == img[i] as int then 1 else 0)
        {
          HitsAppend(old(pscLog), img, i, j);
        }
        res := Success(r);
    }

    /** Under the invariant, the counts read from the table are the logged ones. */
    lemma CountsAreLogged(img: seq<byte>)
      requires Valid() && InBuckets(img)
      ensures Counts(img) == LoggedCounts(pscBase, pscLog, img)
    {
      assert forall i :: 0 <= i < pscK ==> Counts(img)[i] == LoggedCounts(pscBase, pscLog, img)[i];
    }

    /** The histogram update of update_montezuma_rooms (game_state.py:138-139): the room's
        count gains one; `first` tells whether this is its first visit. */
    method CountRoom(room: int) returns (first: bool)
      requires RoomsOk() && 0 <= room < RoomCount
      modifies rooms, this`roomLog
      ensures RoomsOk() && roomLog == old(roomLog) + [room]
      ensures rooms[room] == old(rooms[room]) + 1
      ensures forall r :: 0 <= r < RoomCount && r != room ==> rooms[r] == old(rooms[r])
      ensures (first <==> rooms[room] == 1) && (first <==> room !in old(roomLog))
    {
      OccurrencesZero(roomLog, room);
      rooms[room] := rooms[room] + 1;
      forall r | 0 <= r < RoomCount
        ensures Occurrences(roomLog + [room], r) == Occurrences(roomLog, r) + (if room == r then 1 else 0)
      {
        OccurrencesAppend(roomLog, room, r);
      }
      roomLog := roomLog + [room];
      first := rooms[room] == 1;
    }

    /**
     * update_montezuma_rooms (game_state.py:135-144): count the room in RAM byte 3,
     * flag it as new on its first visit, and shift room_no into prev_room_no.
     */
    method UpdateMontezumaRooms()
      requires RoomsOk() && ConfigOk(opts, emu, downsize) && opts.montezuma
      modifies rooms, this`roomLog, this`roomNo, this`prevRoomNo, this`newRoom
      ensures RoomsOk()
      ensures var room := emu(history).room;
        rooms[room] == old(rooms[room]) + 1 &&
        (forall r :: 0 <= r < RoomCount && r != room ==> rooms[r] == old(rooms[r])) &&
        (rooms[room] == 1 <==> room !in old(roomLog))
      ensures RoomPart() == VisitRoom(old(RoomPart()), emu(history).room)
    {
      var room := emu(history).room;
      var first := CountRoom(room);
      if first {
        newRoom := room;
      }
      prevRoomNo := roomNo;
      roomNo := room;
    }

    /** pseudo_count (game_state.py:237-249) for the processed frame x. */
    method PseudoCount(x: Frame) returns (r: real)
      requires Valid()
      modifies pscVcount, this`pscN, this`pscLog, rooms, this`roomLog, this`roomNo, this`prevRoomNo, this`newRoom
      ensures Valid()
      ensures DensityPart() == if opts.pscUse then CountImage(old(DensityPart()), x) else old(DensityPart())
      ensures RoomPart() == if opts.montezuma then VisitRoom(old(RoomPart()), emu(history).room) else old(RoomPart())
      ensures r == PscRewardOf(old(DensityPart()), x)
    {
      r := 0.0;
      if opts.pscUse {
        var img := PscImageOf(x);
        CountsAreLogged(img);
        var res := PscAddImage(UInt8(img));
        r := res.value;
      }
      if opts.montezuma {
        UpdateMontezumaRooms();
      }
    }

    /** _process_action (game_state.py:163-172), ALE branch: always acts. */
    method ProcessAction(a: int) returns (r: int, t: bool)
      modifies this`history, this`terminal
      ensures history == old(history) + [Act(a)]
      ensures r == emu(history).reward && t == emu(history).gameOver && terminal == t
    {
      history := history + [Act(a)];
      var o := emu(history);
      r, t := o.reward, o.gameOver;
      terminal := t;
    }

    /**
     * _process_frame (game_state.py:174-235): once terminal it neither acts nor
     * changes the flag and contributes reward 0; the frame is the current screen.
     */
    method ProcessFrame(a: int) returns (r: int, t: bool, x: Frame)
      modifies this`history, this`terminal
      ensures old(terminal) ==> history == old(history) && r == 0 && t && terminal
      ensures !old(terminal) ==>
        history == old(history) + [Act(a)] &&
        r == emu(history).reward && t == emu(history).gameOver && terminal == t
      ensures x == emu(history).frame
    {
      if terminal {
        r, t := 0, true;
      } else {
        history := history + [Act(a)];
        var o := emu(history);
        r, t := o.reward, o.gameOver;
        terminal := t;
      }
      x := emu(history).frame;
    }

    /**
     * The stacked branch of process (game_state.py:308-317): F frames, stop
     * acting after the first game over and repeat the last frame.
     */
    method SkipStacked(a: int) returns (rew: int, t: bool, frames: seq<Frame>)
      modifies this`history, this`terminal
      ensures old(terminal) ==>
        history == old(history) && rew == 0 && t && terminal &&
        frames == Repeat(emu(history).frame, opts.framesSkipInGs)
      ensures !old(terminal) ==>
        Skip(history, rew, t) == SkipOutcome(emu, old(history), a, opts.framesSkipInGs) && terminal == t &&
        frames == SkipFrames(emu, old(history), a, opts.framesSkipInGs)
    {
      ghost var h := history;
      ghost var T := terminal;
      var n := opts.framesSkipInGs;
      ghost var m := FirstGameOver(emu, h, a, n);
      rew, t, frames := 0, false, [];
      var local := false;
      var last := emu(history).frame;
      var i := 0;
      while i < n
        invariant 0 <= i <= n && |frames| == i
        invariant T ==>
          history == h && rew == 0 && (i > 0 ==> local && t && terminal) && last == emu(h).frame &&
          (forall j :: 0 <= j < i ==> frames[j] == emu(h).frame)
        invariant !T ==>
          local == (m < i) && history == Acts(h, a, Min(i, m + 1)) &&
          rew == RewardUpTo(emu, h, a, Min(i, m + 1)) &&
          (i == 0 ==> !terminal) && (i > 0 ==> terminal == local && t == local && last == frames[i - 1]) &&
          (forall j :: 0 <= j < i ==> frames[j] == ObsAt(emu, h, a, Min(j, m)).frame)
        invariant T && i == 0 ==> terminal
        invariant i == 0 ==> !local
      {
        if !local {
          ActsNext(h, a, i);
          var r, t1, x := ProcessFrame(a);
          if !T {
            assert history == Acts(h, a, i + 1);
            assert emu(history) == ObsAt(emu, h, a, i);
          }
          rew := rew + r;
          local := local || t1;
          t := t1;
          last := x;
        }
        frames := frames + [last];
        i := i + 1;
      }
      if !T {
        assert frames == SkipFrames(emu, h, a, n);
      } else {
        assert frames == Repeat(emu(h).frame, n);
      }
    }

    /**
     * The other branch of process (game_state.py:326-335): up to F-1 action-only
     * steps that stop at the first game over, then one full frame.
     */
    method SkipActionOnly(a: int) returns (rew: int, t: bool, x: Frame)
      modifies this`history, this`terminal
      ensures old(terminal) && opts.framesSkipInGs == 1 ==>
        history == old(history) && rew == 0 && t && terminal
      ensures !(old(terminal) && opts.framesSkipInGs == 1) ==>
        Skip(history, rew, t) == SkipOutcome(emu, old(history), a, opts.framesSkipInGs) && terminal == t
      ensures x == emu(history).frame
    {
      ghost var h := history;
      var n := opts.framesSkipInGs;
      ghost var m := FirstGameOver(emu, h, a, n - 1);
      rew := 0;
      var i := 0;
      var broke := false;
      while i < n - 1 && !broke
        invariant 0 <= i <= n - 1
        invariant history == Acts(h, a, i) && rew == RewardUpTo(emu, h, a, i)
        invariant !broke ==> i <= m && (i > 0 ==> !terminal) && (i == 0 ==> terminal == old(terminal))
        invariant broke ==> i == m + 1 && terminal
        decreases n - 1 - i, if broke then 0 else 1
      {
        ActsNext(h, a, i);
        var r, t1 := ProcessAction(a);
        rew := rew + r;
        i := i + 1;
        if t1 {
          terminal := true;
          broke := true;
        }
      }
      ActsNext(h, a, i);
      var r;
      r, t, x := ProcessFrame(a);
      rew := rew + r;
      if broke {
        FirstGameOverUnique(emu, h, a, n, m);
      } else if !(old(terminal) && n == 1) {
        assert i == n - 1;
        FirstGameOverUnique(emu, h, a, n, if t then n - 1 else n);
      }
    }

    /**
     * The mode-dependent part of process (game_state.py:306-338): reward, flag
     * and next stack for the real action `a`; returns the frame handed on to
     * pseudo_count (game_state.py:340).
     */
    method Advance(a: int) returns (x: Frame)
      requires Valid()
      modifies this`history, this`terminal, this`reward, this`sT1
      ensures Valid()
      ensures RunPart() == AdvanceRun(old(RunPart()), a)
      ensures x == emu(history).frame
    {
      var rew: int;
      var t: bool;
      if opts.stackFramesInGs {
        var frames;
        rew, t, frames := SkipStacked(a);
        x := frames[|frames| - 1];
        if !old(terminal) {
          SkipFramesFreeze(emu, old(history), a, opts.framesSkipInGs);
        }
        sT1 := Some(frames);
      } else {
        rew, t, x := SkipActionOnly(a);
        sT1 := Some(ShiftIn(sT, x));
      }
      reward := rew;
      terminal := t;
    }

    /** The bookkeeping that closes process (game_state.py:340-348): the pseudo-count reward
        is stored, lives are read, and a recorded episode advances its image counter. */
    method FinishStep(r: real)
      requires Valid()
      modifies this`pscReward, this`lives, this`stepNo
      ensures Valid()
      ensures EpisodePart() == old(EpisodePart()).(pscReward := r, lives := emu(history).lives,
                                                   stepNo := if opts.recording then old(stepNo) + 1 else old(stepNo))
    {
      pscReward := r;
      lives := emu(history).lives;
      if opts.recording {
        stepNo := stepNo + 1;
      }
    }

    /** The end of process (game_state.py:340-348) on the frame x the skip ended with. */
    method CountStep(x: Frame)
      requires Valid()
      modifies this`pscReward, this`lives, this`stepNo,
               pscVcount, this`pscN, this`pscLog, rooms, this`roomLog, this`roomNo, this`prevRoomNo, this`newRoom
      ensures Valid()
      ensures View() == AfterCountStep(old(View()), x)
    {
      var r := PseudoCount(x);
      FinishStep(r);
    }

    /**
     * process (game_state.py:298-348): one agent step with action index
     * `action`, mapped through the minimal action set.
     */
    method Process(action: int)
      requires Valid() && 0 <= action < |realActions|
      modifies this`history, this`terminal, this`reward, this`sT1, this`pscReward, this`lives, this`stepNo,
               pscVcount, this`pscN, this`pscLog, rooms, this`roomLog, this`roomNo, this`prevRoomNo, this`newRoom
      ensures Valid()
      ensures View() == AfterProcess(old(View()), realActions[action])
    {
      var x := Advance(realActions[action]);
      CountStep(x);
    }

    /** update (game_state.py:351-352): the next stack becomes the current one. */
    method Update()
      requires Valid() && sT1.Some?
      modifies this`sT
      ensures Valid() && RunPart() == old(RunPart()).(sT := old(sT1).value)
    {
      sT := sT1.value;
    }

    /**
     * The emulator part of reset (game_state.py:262-279): restart the game,
     * `noOps` no-op acts, then one processed frame acting with action 0; the
     * flag is cleared first and then set from the emulator.
     */
    method RestartGame(noOps: nat) returns (x: Frame)
      requires Valid()
      modifies this`history, this`terminal
      ensures Valid()
      ensures var h := RestartHistory(old(history), noOps);
        history == h && terminal == emu(h).gameOver && x == emu(h).frame
    {
      var h := history + [ResetGame];
      var i := 0;
      while i < noOps
        invariant 0 <= i <= noOps
        invariant h == old(history) + [ResetGame] + Repeat(Act(0), i)
      {
        h := h + [Act(0)];
        i := i + 1;
        assert h == old(history) + [ResetGame] + Repeat(Act(0), i);
      }
      history := h;
      terminal := false;
      var _, _, x' := ProcessFrame(0);
      x := x';
    }

    /** reset's new stack (game_state.py:281-282): reward 0 and four copies of the frame. */
    method StartStack(x: Frame)
      modifies this`reward, this`sT
      ensures reward == 0 && sT == Repeat(x, StackDepth)
    {
      reward := 0;
      sT := [x, x, x, x];
    }

    /** reset's bookkeeping (game_state.py:284-295): lives read, a recorded episode counted,
        no new room. */
    method StartCounters()
      modifies this`lives, this`initialLives, this`episode, this`stepNo, this`newRoom
      ensures EpisodePart() == old(EpisodePart()).(
        lives := emu(history).lives, initialLives := emu(history).lives,
        episode := if opts.recording then old(episode) + 1 else old(episode),
        stepNo := if opts.recording then 1 else old(stepNo))
      ensures newRoom == -1
    {
      lives := emu(history).lives;
      initialLives := lives;
      if opts.recording {
        episode := episode + 1;
        stepNo := 1;
      }
      newRoom := -1;
    }

    /** The bookkeeping that closes reset (game_state.py:281-296). */
    method StartEpisode(x: Frame)
      requires Valid()
      modifies this`reward, this`sT, this`lives, this`initialLives, this`episode, this`stepNo, this`newRoom
      ensures Valid()
      ensures RunPart() == old(RunPart()).(reward := 0, sT := Repeat(x, StackDepth))
      ensures EpisodePart() == old(EpisodePart()).(
        lives := emu(history).lives, initialLives := emu(history).lives,
        episode := if opts.recording then old(episode) + 1 else old(episode),
        stepNo := if opts.recording then 1 else old(stepNo))
      ensures RoomPart() == old(RoomPart()).(newRoom := -1)
    {
      StartStack(x);
      StartCounters();
    }

    /** The end of reset (game_state.py:280-296) on the frame x the restart ended with. */
    method BeginEpisode(x: Frame)
      requires Valid()
      modifies this`reward, this`sT, this`lives, this`initialLives, this`episode, this`stepNo,
               pscVcount, this`pscN, this`pscLog, rooms, this`roomLog, this`roomNo, this`prevRoomNo, this`newRoom
      ensures Valid()
      ensures View() == AfterBegin(old(View()), x)
    {
      var _ := PseudoCount(x);
      StartEpisode(x);
    }

    /** reset (game_state.py:260-296), ALE branch. */
    method Reset(noOps: nat)
      requires Valid() && noOps <= NoOpBound(opts)
      modifies this`history, this`terminal, this`reward, this`sT, this`lives, this`initialLives,
               this`episode, this`stepNo,
               pscVcount, this`pscN, this`pscLog, rooms, this`roomLog, this`roomNo, this`prevRoomNo, this`newRoom
      ensures Valid()
      ensures View() == AfterReset(old(View()), noOps)
    {
      var x := RestartGame(noOps);
      BeginEpisode(x);
    }
  }

  /**
   * __init__ (game_state.py:19-97): a minimal action set whose size is not
   * action_size stops the process before any worker runs (game_state.py:70-76);
   * otherwise the attributes are set up and a reset with `noOps` random no-ops
   * starts the first episode.
   */
  method NewGameState(opts: GoodOptions, emu: Oracle, downsize: Frame -> seq<byte>, bonus: (seq<nat>, nat) -> real,
                      realActions: seq<int>, actionSize: nat, noOps: nat) returns (g: Option<GameState>)
    requires ConfigOk(opts, emu, downsize) && noOps <= NoOpBound(opts)
    ensures g.None? <==> |realActions| != actionSize
    ensures g.Some? ==>
      (fresh(g.value) && g.value.Valid() && g.value.realActions == realActions &&
       g.value.opts == opts && g.value.emu == emu && g.value.downsize == downsize && g.value.bonus == bonus &&
       g.value.View() == g.value.AfterReset(g.value.Fresh(), noOps))
  {
    if |realActions| != actionSize {
      return None;
    }
    var s := new GameState(opts, emu, downsize, bonus, realActions);
    s.Reset(noOps);
    g := Some(s);
  }
}
