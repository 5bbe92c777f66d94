/**
 * The emulator as seen by GameState (game_state.py:163-235): an oracle that
 * answers, for the whole history of inputs given to it since start, what the
 * last input produced. Frames are opaque; the colour handling, grey
 * conversion, resize, crop and normalisation that turn a screen into the
 * processed frame are folded into the oracle's `frame`.
 */
module Emulator {
  type Frame(!new)

  datatype Input = ResetGame | Act(action: int)

  /** What the emulator shows after a history: the last act's reward, game_over(), the
      processed screen, lives() and byte 3 of the RAM (the room in Montezuma's Revenge). */
  datatype Observation = Observation(reward: int, gameOver: bool, frame: Frame, lives: int, room: int)

  type Oracle = seq<Input> -> Observation

  function Repeat<T>(x: T, n: nat): (s: seq<T>)
    ensures |s| == n && forall i :: 0 <= i < n ==> s[i] == x
  {
    seq(n, _ => x)
  }

  function Min(a: int, b: int): int { if a < b then a else b }

  /** The history after `j` further acts with the same action. */
  function Acts(h: seq<Input>, a: int, j: nat): (r: seq<Input>)
    ensures |r| == |h| + j && r[..|h|] == h
  {
    h + Repeat(Act(a), j)
  }

  lemma ActsNext(h: seq<Input>, a: int, j: nat)
    ensures Acts(h, a, j) + [Act(a)] == Acts(h, a, j + 1)
  {
  }

  /** The observation after the (j+1)-th of those acts. */
  function ObsAt(emu: Oracle, h: seq<Input>, a: int, j: nat): Observation
  {
    emu(Acts(h, a, j + 1))
  }

  /** The index of the first of acts j..n-1 that ends the game, or n if none does. */
  function FirstGameOverFrom(emu: Oracle, h: seq<Input>, a: int, j: nat, n: nat): (r: nat)
    requires j <= n
    ensures j <= r <= n
    ensures forall i :: j <= i < r ==> !ObsAt(emu, h, a, i).gameOver
    ensures r < n ==> ObsAt(emu, h, a, r).gameOver
    decreases n - j
  {
    if j == n then n
    else if ObsAt(emu, h, a, j).gameOver then j
    else FirstGameOverFrom(emu, h, a, j + 1, n)
  }

  function FirstGameOver(emu: Oracle, h: seq<Input>, a: int, n: nat): (r: nat)
    ensures r <= n
    ensures forall i :: 0 <= i < r ==> !ObsAt(emu, h, a, i).gameOver
    ensures r < n ==> ObsAt(emu, h, a, r).gameOver
  {
    FirstGameOverFrom(emu, h, a, 0, n)
  }

  /** The first game over is the only index that has no game over before it and one at it. */
  lemma FirstGameOverUnique(emu: Oracle, h: seq<Input>, a: int, n: nat, r: nat)
    requires r <= n
    requires forall i :: 0 <= i < r ==> !ObsAt(emu, h, a, i).gameOver
    requires r < n ==> ObsAt(emu, h, a, r).gameOver
    ensures FirstGameOver(emu, h, a, n) == r
  {
  }

  /** The sum of the rewards of the first j acts. */
  function RewardUpTo(emu: Oracle, h: seq<Input>, a: int, j: nat): int
  {
    if j == 0 then 0 else RewardUpTo(emu, h, a, j - 1) + ObsAt(emu, h, a, j - 1).reward
  }

  /** What a frame skip of n acts with one action yields: the history, the summed reward, the flag. */
  datatype Skip = Skip(history: seq<Input>, reward: int, terminal: bool)

  /**
   * Up to n acts, stopping right after the first one that ends the game: the
   * reward sums every act up to and including that one.
   */
  function SkipOutcome(emu: Oracle, h: seq<Input>, a: int, n: nat): Skip
  {
    var m := FirstGameOver(emu, h, a, n);
    var taken := if m < n then m + 1 else n;
    Skip(Acts(h, a, taken), RewardUpTo(emu, h, a, taken), m < n)
  }

  /**
   * The skip ends terminal exactly when one of the n acts ends the game, and
   * it extends the history by at least one and at most n acts.
   */
  lemma SkipOutcomeShape(emu: Oracle, h: seq<Input>, a: int, n: nat)
    ensures var s := SkipOutcome(emu, h, a, n);
      (s.terminal <==> exists i :: 0 <= i < n && ObsAt(emu, h, a, i).gameOver) &&
      (|h| < |s.history| <= |h| + n || (n == 0 && s.history == h)) &&
      s.history[..|h|] == h
  {
  }

  /** Game over on the 2nd of 4 skipped frames: the reward is that of the first two acts and no more. */
  lemma SkipStopsAtSecondOfFour(emu: Oracle, h: seq<Input>, a: int)
    requires !ObsAt(emu, h, a, 0).gameOver && ObsAt(emu, h, a, 1).gameOver
    ensures SkipOutcome(emu, h, a, 4) ==
      Skip(Acts(h, a, 2), ObsAt(emu, h, a, 0).reward + ObsAt(emu, h, a, 1).reward, true)
  {
    FirstGameOverUnique(emu, h, a, 4, 1);
    assert RewardUpTo(emu, h, a, 1) == ObsAt(emu, h, a, 0).reward;
  }

  /** Without a game over, all n acts happen and every reward counts. */
  lemma SkipWithoutGameOver(emu: Oracle, h: seq<Input>, a: int, n: nat)
    requires forall i :: 0 <= i < n ==> !ObsAt(emu, h, a, i).gameOver
    ensures SkipOutcome(emu, h, a, n) == Skip(Acts(h, a, n), RewardUpTo(emu, h, a, n), false)
  {
    FirstGameOverUnique(emu, h, a, n, n);
  }

  /**
   * The n frames of the stacked mode: the frame after each act up to the first
   * game over, then that frame again in every remaining slot.
   */
  function SkipFrames(emu: Oracle, h: seq<Input>, a: int, n: nat): (frames: seq<Frame>)
    ensures |frames| == n
  {
    var m := FirstGameOver(emu, h, a, n);
    seq(n, j requires 0 <= j < n => ObsAt(emu, h, a, Min(j, m)).frame)
  }

  /** The last slot is the frame after the skip's last act, and every slot from the game over on repeats it. */
  lemma SkipFramesFreeze(emu: Oracle, h: seq<Input>, a: int, n: nat)
    requires n >= 1
    ensures var frames := SkipFrames(emu, h, a, n);
      frames[n - 1] == emu(SkipOutcome(emu, h, a, n).history).frame &&
      forall j :: FirstGameOver(emu, h, a, n) <= j < n ==> frames[j] == frames[n - 1]
  {
  }
}
