/**
 * The checkpoint scheduling and control decisions of the asynchronous trainer
 * (a3c.py): restore at start-up, one iteration of a worker's loop, the save
 * itself and the interrupt handler. The threads are not modelled: a Trainer
 * holds the module globals and each method is one sequential step of one worker.
 */
module A3C {
  import opened Wrappers
  import opened CheckpointNames
  import opened Arith

  /** Adding one interval to a boundary keeps it on the interval grid. */
  lemma AddIntervalKeepsMultiple(n: nat, interval: nat)
    requires interval > 0 && n % interval == 0
    ensures (n + interval) % interval == 0
  {
    var q := n / interval;
    assert n == q * interval;
    DivModUnique(n + interval, interval, q + 1, 0);
  }

  /** The first checkpoint boundary after a restore at `globalT` (a3c.py:89). */
  function NextSaveAfterRestore(globalT: nat, interval: nat): (next: nat)
    requires interval > 0
    ensures next % interval == 0 && globalT < next <= globalT + interval
  {
    var q := (globalT + interval) / interval;
    assert globalT + interval == q * interval + (globalT + interval) % interval;
    DivModUnique(q * interval, interval, q, 0);
    q * interval
  }

  /** It is the least multiple of the interval strictly above the restored step. */
  lemma NextSaveIsLeast(globalT: nat, interval: nat, m: nat)
    requires interval > 0 && m % interval == 0 && m > globalT
    ensures NextSaveAfterRestore(globalT, interval) <= m
  {
    var next := NextSaveAfterRestore(globalT, interval);
    var p := m / interval;
    assert m == p * interval;
    var q := next / interval;
    assert next == q * interval;
    if p < q {
      MulAtLeast(q - p, interval);
    }
  }

  /** The values the start-up code assigns to the module globals. */
  datatype Resumed = Resumed(globalT: nat, wallT: real, nextSaveSteps: nat)

  datatype RestoreError =
    | BadCheckpointPath(StepError)      // IndexError or ValueError reading the step
    | MissingWallTimeFile(name: string) // open() of the wall-time file fails
    | ZeroInterval                      // ZeroDivisionError at a3c.py:89

  /** No checkpoint state, or one without a model_checkpoint_path (a3c.py:78). */
  predicate NoCheckpoint(latest: Option<string>)
  {
    latest == None || latest == Some("")
  }

  /**
   * a3c.py:84-89 once the step has been read from the checkpoint path, or the
   * read failed: the wall-time file of that step, then the next boundary.
   */
  function ResumeFrom(dir: string, interval: nat, wallFiles: map<string, real>, parsed: Result<nat, StepError>)
    : (r: Result<Resumed, RestoreError>)
    ensures parsed.Failure? ==> r == Failure(BadCheckpointPath(parsed.error))
    ensures r.Success? <==>
      parsed.Success? && WallTimeFileName(dir, parsed.value) in wallFiles && interval > 0
    ensures parsed.Success? && WallTimeFileName(dir, parsed.value) in wallFiles && interval == 0 ==>
      r == Failure(ZeroInterval)
    ensures r.Success? ==>
      r.value.globalT == parsed.value && r.value.wallT == wallFiles[WallTimeFileName(dir, parsed.value)] &&
      r.value.globalT < r.value.nextSaveSteps && r.value.nextSaveSteps % interval == 0 &&
      r.value.nextSaveSteps == NextSaveAfterRestore(r.value.globalT, interval)
  {
    match parsed
    case Failure(e) => Failure(BadCheckpointPath(e))
    case Success(step) =>
      var name := WallTimeFileName(dir, step);
      if name !in wallFiles then Failure(MissingWallTimeFile(name))
      else if interval == 0 then Failure(ZeroInterval)
      else Success(Resumed(step, wallFiles[name], NextSaveAfterRestore(step, interval)))
  }

  /**
   * a3c.py:77-94. `latest` is the recorded model_checkpoint_path (None when there
   * is no checkpoint state); `wallFiles` maps the wall-time files of the checkpoint
   * directory to the number they hold. The step is read as the source reads it,
   * from the token after the first '-'.
   */
  function Restore(dir: string, interval: nat, wallFiles: map<string, real>, latest: Option<string>)
    : (r: Result<Resumed, RestoreError>)
    ensures NoCheckpoint(latest) ==> r == Success(Resumed(0, 0.0, interval))
    ensures !NoCheckpoint(latest) ==>
      var parsed := StepFromPathAsWritten(latest.value);
      (r.Success? <==> parsed.Success? && WallTimeFileName(dir, parsed.value) in wallFiles && interval > 0) &&
      (parsed.Failure? ==> r == Failure(BadCheckpointPath(parsed.error))) &&
      (r.Success? ==> parsed == Success(r.value.globalT) &&
                      r.value.wallT == wallFiles[WallTimeFileName(dir, r.value.globalT)] &&
                      r.value.nextSaveSteps == NextSaveAfterRestore(r.value.globalT, interval))
    ensures r.Success? && interval > 0 ==>
      r.value.globalT < r.value.nextSaveSteps && r.value.nextSaveSteps % interval == 0
  {
    if NoCheckpoint(latest) then Success(Resumed(0, 0.0, interval))
    else ResumeFrom(dir, interval, wallFiles, StepFromPathAsWritten(latest.value))
  }

  /** The evidently intended restore: the step is the number after the last '-'. */
  function RestoreIntended(dir: string, interval: nat, wallFiles: map<string, real>, latest: Option<string>)
    : (r: Result<Resumed, RestoreError>)
    ensures NoCheckpoint(latest) ==> r == Restore(dir, interval, wallFiles, latest)
    ensures !NoCheckpoint(latest) ==>
      var parsed := StepFromPath(latest.value);
      (r.Success? <==> parsed.Success? && WallTimeFileName(dir, parsed.value) in wallFiles && interval > 0) &&
      (r.Success? ==> parsed == Success(r.value.globalT) &&
                      r.value.wallT == wallFiles[WallTimeFileName(dir, r.value.globalT)])
  {
    if NoCheckpoint(latest) then Success(Resumed(0, 0.0, interval))
    else ResumeFrom(dir, interval, wallFiles, StepFromPath(latest.value))
  }

  /**
   * Save at step s into a directory without '-', then restart: the restore reads
   * back step s and the wall time written for s, and schedules the next boundary
   * after s; with a zero interval the restart divides by zero.
   */
  lemma RestoreAfterSave(dir: string, interval: nat, wallFiles: map<string, real>, s: nat, w: real)
    requires '-' !in dir
    ensures Restore(dir, interval, wallFiles[WallTimeFileName(dir, s) := w], Some(SaverPath(dir, s)))
         == if interval == 0 then Failure(ZeroInterval) else Success(Resumed(s, w, NextSaveAfterRestore(s, interval)))
  {
    StepFromPathAsWrittenRoundTrip(dir, s);
    assert SaverPath(dir, s) != "";
  }

  /** A checkpoint directory with one '-' makes the restart fail, whatever was saved. */
  lemma RestoreFailsOnDashedDir(a: string, b: string, interval: nat, wallFiles: map<string, real>, s: nat)
    requires '-' !in a && '-' !in b
    ensures Restore(a + "-" + b, interval, wallFiles, Some(SaverPath(a + "-" + b, s)))
         == Failure(BadCheckpointPath(NotANumber))
  {
    StepFromPathAsWrittenFails(a, b, s);
    assert SaverPath(a + "-" + b, s) != "";
  }

  /**
   * A checkpoint directory with two '-' around a number k: the restore reads k
   * from the directory name, whatever step was saved, and resumes there without
   * an error when a wall-time file for k exists.
   */
  lemma RestoreReadsDirectoryStep(a: string, k: nat, b: string, interval: nat, wallFiles: map<string, real>, s: nat)
    requires '-' !in a && '-' !in b && interval > 0
    requires WallTimeFileName(a + "-" + Show(k) + "-" + b, k) in wallFiles
    ensures var dir := a + "-" + Show(k) + "-" + b;
      Restore(dir, interval, wallFiles, Some(SaverPath(dir, s)))
        == Success(Resumed(k, wallFiles[WallTimeFileName(dir, k)], NextSaveAfterRestore(k, interval)))
  {
    var dir := a + "-" + Show(k) + "-" + b;
    StepFromPathAsWrittenReadsDirectory(a, k, b, s);
    assert SaverPath(dir, s) != "";
  }

  /** With the intended reading, a save and a restart round-trip in every directory. */
  lemma RestoreIntendedAfterSave(dir: string, interval: nat, wallFiles: map<string, real>, s: nat, w: real)
    ensures RestoreIntended(dir, interval, wallFiles[WallTimeFileName(dir, s) := w], Some(SaverPath(dir, s)))
         == if interval == 0 then Failure(ZeroInterval) else Success(Resumed(s, w, NextSaveAfterRestore(s, interval)))
  {
    StepFromPathRoundTrip(dir, s);
    assert SaverPath(dir, s) != "";
  }

  class Trainer {
    const checkpointDir: string
    const saveTimeInterval: nat
    const saveTimeStep: int
    var globalT: nat
    var nextSaveSteps: nat
    var stopRequested: bool
    var wallT: real
    /** The wall_t.<step> files of the checkpoint directory and the elapsed time each holds. */
    var wallFiles: map<string, real>
    /** The model_checkpoint_path the model saver last recorded. */
    var latestCheckpoint: Option<string>

    /** The checkpoint boundary is a positive multiple of a positive interval; with a zero
        interval it stays 0, so worker 0 saves on every iteration past step 0. */
    ghost predicate Valid()
      reads this
    {
      (saveTimeInterval > 0 ==> nextSaveSteps > 0 && nextSaveSteps % saveTimeInterval == 0) &&
      (saveTimeInterval == 0 ==> nextSaveSteps == 0)
    }

    /** The module globals after the start-up code has restored (or not) a checkpoint. */
    constructor (dir: string, interval: nat, horizon: int, files: map<string, real>,
                 latest: Option<string>, resumed: Resumed)
      requires Restore(dir, interval, files, latest) == Success(resumed)
      ensures Valid()
      ensures checkpointDir == dir && saveTimeInterval == interval && saveTimeStep == horizon
      ensures globalT == resumed.globalT && wallT == resumed.wallT
      ensures nextSaveSteps == resumed.nextSaveSteps && (interval > 0 ==> globalT < nextSaveSteps)
      ensures !stopRequested && wallFiles == files && latestCheckpoint == latest
    {
      checkpointDir, saveTimeInterval, saveTimeStep := dir, interval, horizon;
      globalT, wallT, nextSaveSteps := resumed.globalT, resumed.wallT, resumed.nextSaveSteps;
      stopRequested := false;
      wallFiles, latestCheckpoint := files, latest;
    }

    /**
     * save_data (a3c.py:97-112): writes the elapsed wall time under the current
     * step's name and records the saver's checkpoint path for that step.
     */
    method SaveData(elapsed: real)
      modifies this
      ensures wallFiles == old(wallFiles)[WallTimeFileName(checkpointDir, globalT) := elapsed]
      ensures latestCheckpoint == Some(SaverPath(checkpointDir, globalT))
      ensures globalT == old(globalT) && nextSaveSteps == old(nextSaveSteps)
      ensures stopRequested == old(stopRequested) && wallT == old(wallT)
    {
      var step := globalT;
      wallFiles := wallFiles[WallTimeFileName(checkpointDir, step) := elapsed];
      latestCheckpoint := Some(SaverPath(checkpointDir, step));
    }

    /**
     * One iteration of train_function's loop (a3c.py:124-136) for worker
     * `parallelIndex`. `delta` is what the worker's process call returns and is
     * used only when the loop goes on; `elapsed` is the wall time a save records.
     * Returns false when the loop exits.
     */
    method TrainStep(parallelIndex: nat, delta: nat, elapsed: real) returns (goOn: bool)
      requires Valid()
      modifies this
      ensures Valid()
      ensures var saved := parallelIndex == 0 && old(globalT) > old(nextSaveSteps);
        nextSaveSteps == old(nextSaveSteps) + (if saved then saveTimeInterval else 0) &&
        wallFiles == (if saved then old(wallFiles)[WallTimeFileName(checkpointDir, old(globalT)) := elapsed]
                      else old(wallFiles)) &&
        latestCheckpoint == (if saved then Some(SaverPath(checkpointDir, old(globalT)))
                             else old(latestCheckpoint))
      ensures goOn <==> !old(stopRequested) && old(globalT) <= saveTimeStep
      ensures globalT == old(globalT) + (if goOn then delta else 0)
      ensures stopRequested == old(stopRequested) && wallT == old(wallT)
    {
      if parallelIndex == 0 && globalT > nextSaveSteps {
        SaveData(elapsed);
        if saveTimeInterval > 0 {
          AddIntervalKeepsMultiple(nextSaveSteps, saveTimeInterval);
        }
        nextSaveSteps := nextSaveSteps + saveTimeInterval;
      }
      if stopRequested {
        return false;
      }
      if globalT > saveTimeStep {
        return false;
      }
      globalT := globalT + delta;
      goOn := true;
    }

    /** signal_handler (a3c.py:139-142): sets the flag and nothing else. */
    method RequestStop()
      modifies this`stopRequested
      ensures stopRequested
    {
      stopRequested := true;
    }
  }

  /** The start-up code: restore or start fresh; a failed restore is fatal. */
  method Launch(dir: string, interval: nat, horizon: int, files: map<string, real>, latest: Option<string>)
    returns (r: Result<Trainer, RestoreError>)
    ensures r.Failure? <==> Restore(dir, interval, files, latest).Failure?
    ensures r.Failure? ==> r.error == Restore(dir, interval, files, latest).error
    ensures r.Success? ==>
      !r.value.stopRequested && r.value.checkpointDir == dir && r.value.saveTimeInterval == interval &&
      r.value.saveTimeStep == horizon && r.value.wallFiles == files && r.value.latestCheckpoint == latest
    ensures r.Success? ==>
      (fresh(r.value) && r.value.Valid() &&
       Restore(dir, interval, files, latest) ==
         Success(Resumed(r.value.globalT, r.value.wallT, r.value.nextSaveSteps)))
  {
    match Restore(dir, interval, files, latest)
    case Failure(e) => r := Failure(e);
    case Success(resumed) =>
      var t := new Trainer(dir, interval, horizon, files, latest, resumed);
      r := Success(t);
  }

  /**
   * A save followed by a restart: in a directory without '-' it resumes at the
   * saved step with the saved wall time, or divides by zero for a zero interval;
   * in any directory it fails exactly when the restore does.
   */
  method SaveThenRestart(t: Trainer, elapsed: real) returns (r: Result<Trainer, RestoreError>)
    requires t.Valid()
    modifies t
    ensures t.globalT == old(t.globalT) && t.nextSaveSteps == old(t.nextSaveSteps) &&
      t.stopRequested == old(t.stopRequested) && t.wallT == old(t.wallT)
    ensures t.wallFiles == old(t.wallFiles)[WallTimeFileName(t.checkpointDir, t.globalT) := elapsed] &&
      t.latestCheckpoint == Some(SaverPath(t.checkpointDir, t.globalT))
    ensures r.Failure? <==> Restore(t.checkpointDir, t.saveTimeInterval, t.wallFiles, t.latestCheckpoint).Failure?
    ensures r.Success? ==>
      !r.value.stopRequested && r.value.checkpointDir == t.checkpointDir &&
      r.value.saveTimeInterval == t.saveTimeInterval && r.value.saveTimeStep == t.saveTimeStep
    ensures '-' !in t.checkpointDir && t.saveTimeInterval == 0 ==> r == Failure(ZeroInterval)
    ensures '-' !in t.checkpointDir && t.saveTimeInterval > 0 ==>
      r.Success? && r.value.globalT == t.globalT && r.value.wallT == elapsed &&
      r.value.nextSaveSteps == NextSaveAfterRestore(t.globalT, t.saveTimeInterval)
  {
    t.SaveData(elapsed);
    if '-' !in t.checkpointDir {
      RestoreAfterSave(t.checkpointDir, t.saveTimeInterval, old(t.wallFiles), t.globalT, elapsed);
    }
    r := Launch(t.checkpointDir, t.saveTimeInterval, t.saveTimeStep, t.wallFiles, t.latestCheckpoint);
  }
}
