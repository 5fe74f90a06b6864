/**
 * The binary-swap updaters: the Rust program patchpilot_updater and its
 * bash copy. Both wait, move the new executable over the old one with up
 * to five attempts, and restart the old path. Whether each move attempt
 * succeeds is the input `moveOk(i)` (attempt numbers from 0); the sleeps
 * and log lines are left out.
 */
module Updater {
  import opened Wrappers

  const MaxRetries: nat := 5

  /** The first successful attempt among the first `limit`, if any. */
  function FirstSuccess(moveOk: nat -> bool, limit: nat): (r: Option<nat>)
    ensures r.Some? ==> r.value < limit && moveOk(r.value) && forall i :: 0 <= i < r.value ==> !moveOk(i)
    ensures r.None? ==> forall i :: 0 <= i < limit ==> !moveOk(i)
  {
    if limit == 0 then None
    else match FirstSuccess(moveOk, limit - 1)
      case Some(k) => Some(k)
      case None => if moveOk(limit - 1) then Some(limit - 1) else None
  }

  /** How a run ended: the exit status, the number of move attempts, and whether the old path was started again. */
  datatype Run = Run(exitCode: int, attempts: nat, restarted: bool)

  /** The Rust updater's exit status when the restart's `expect` panics. */
  const PanicExit: int := 101

  /**
   * `main` of the Rust updater, given the argument vector's length (the
   * program name included). Anything but two paths exits 1 before any
   * move; the loop stops at the first successful rename and gives up after
   * five failures, exiting 1; only after a successful rename is the old
   * path spawned, and a failed spawn panics.
   */
  method RustUpdaterMain(argc: nat, moveOk: nat -> bool, spawnOk: bool) returns (run: Run, retries: nat)
    ensures argc != 3 ==> run == Run(1, 0, false)
    ensures argc == 3 ==> run.attempts <= MaxRetries
    ensures argc == 3 ==> (FirstSuccess(moveOk, MaxRetries).None? <==> run.exitCode == 1)
    ensures argc == 3 && FirstSuccess(moveOk, MaxRetries).None? ==> run == Run(1, MaxRetries, false) && retries == 0
    ensures argc == 3 && FirstSuccess(moveOk, MaxRetries).Some? ==>
      var k := FirstSuccess(moveOk, MaxRetries).value;
      run.attempts == k + 1 && retries == MaxRetries - k && retries > 0
      && (run.restarted <==> spawnOk)
      && run.exitCode == (if spawnOk then 0 else PanicExit)
    ensures run.restarted ==> run.attempts > 0 && moveOk(run.attempts - 1)
  {
    if argc != 3 {
      return Run(1, 0, false), 0;
    }
    retries := MaxRetries;
    var attempt: nat := 0;
    var moved := false;
    while retries > 0
      invariant attempt + retries == MaxRetries
      invariant !moved ==> forall i :: 0 <= i < attempt ==> !moveOk(i)
      invariant moved ==> attempt > 0 && FirstSuccess(moveOk, MaxRetries) == Some(attempt - 1)
      decreases retries, !moved
    {
      if moveOk(attempt) {
        attempt := attempt + 1;
        moved := true;
        break;
      } else {
        attempt := attempt + 1;
        retries := retries - 1;
      }
    }
    if retries == 0 {
      return Run(1, attempt, false), retries;
    }
    run := Run(if spawnOk then 0 else PanicExit, attempt, spawnOk);
  }

  /** Bash's exit status for a script it cannot parse. */
  const SyntaxErrorExit: int := 2

  /**
   * How the bash updater as written ends, given `$#`. Its restart step
   * `if "$OLD_PATH" &; then` is a syntax error, so after a successful move
   * bash stops there with status 2: no run of the script as written
   * restarts the application or ends with status 0.
   */
  function BashRunAsWritten(argCount: nat, moveOk: nat -> bool): (run: Run)
    ensures !run.restarted && run.exitCode != 0
    ensures argCount == 2 && FirstSuccess(moveOk, MaxRetries).Some? ==>
      run == Run(SyntaxErrorExit, FirstSuccess(moveOk, MaxRetries).value + 1, false)
  {
    if argCount != 2 then Run(1, 0, false)
    else match FirstSuccess(moveOk, MaxRetries)
      case None => Run(1, MaxRetries, false)
      case Some(k) => Run(SyntaxErrorExit, k + 1, false)
  }

  /** The bash updater as written: the `mv` loop, then the broken restart step. */
  method BashUpdaterAsWritten(argCount: nat, moveOk: nat -> bool) returns (run: Run)
    ensures run == BashRunAsWritten(argCount, moveOk)
    ensures argCount != 2 ==> run == Run(1, 0, false)
    ensures argCount == 2 && FirstSuccess(moveOk, MaxRetries).None? ==> run == Run(1, MaxRetries, false)
  {
    if argCount != 2 {
      return Run(1, 0, false);
    }
    var attempts, retriesLeft := MoveLoop(moveOk);
    if retriesLeft == 0 {
      return Run(1, attempts, false);
    }
    run := Run(SyntaxErrorExit, attempts, false);
  }

  /**
   * The input that shows the broken restart: with two arguments and a first
   * `mv` that succeeds, the script as written ends with status 2 and
   * nothing restarted, where the intended script restarts the application
   * and ends with status 0.
   */
  lemma AsWrittenNeverRestarts(moveOk: nat -> bool)
    requires moveOk(0)
    ensures BashRunAsWritten(2, moveOk).exitCode == SyntaxErrorExit && !BashRunAsWritten(2, moveOk).restarted
    ensures BashRun(2, moveOk) == Run(0, 1, true)
  {
    assert FirstSuccess(moveOk, MaxRetries) == Some(0);
  }

  /**
   * The bash `while [ $RETRIES -gt 0 ]` loop: each failed `mv` takes one
   * retry, the first successful one breaks out.
   */
  method MoveLoop(moveOk: nat -> bool) returns (attempts: nat, retries: nat)
    ensures retries == 0 <==> FirstSuccess(moveOk, MaxRetries).None?
    ensures retries == 0 ==> attempts == MaxRetries
    ensures retries > 0 ==> attempts == FirstSuccess(moveOk, MaxRetries).value + 1 && retries == MaxRetries - (attempts - 1)
  {
    retries := MaxRetries;
    attempts := 0;
    var moved := false;
    while retries > 0 && !moved
      invariant attempts + retries == MaxRetries + (if moved then 1 else 0)
      invariant !moved ==> forall i :: 0 <= i < attempts ==> !moveOk(i)
      invariant moved ==> attempts > 0 && retries > 0 && FirstSuccess(moveOk, MaxRetries) == Some(attempts - 1)
      decreases retries, !moved
    {
      if moveOk(attempts) {
        moved := true;
      } else {
        retries := retries - 1;
      }
      attempts := attempts + 1;
    }
  }

  /**
   * The bash updater as its log lines say it should run: after a successful
   * move the application is started in the background and the script ends
   * with status 0.
   */
  function BashRun(argCount: nat, moveOk: nat -> bool): (run: Run)
    ensures run.restarted <==> argCount == 2 && FirstSuccess(moveOk, MaxRetries).Some?
    ensures run.exitCode == 0 <==> run.restarted
    ensures run.restarted ==> run.attempts == FirstSuccess(moveOk, MaxRetries).value + 1
  {
    if argCount != 2 then Run(1, 0, false)
    else match FirstSuccess(moveOk, MaxRetries)
      case None => Run(1, MaxRetries, false)
      case Some(k) => Run(0, k + 1, true)
  }

  /** The intended bash updater: the `mv` loop, then the background restart. */
  method BashUpdater(argCount: nat, moveOk: nat -> bool) returns (run: Run)
    ensures run == BashRun(argCount, moveOk)
    ensures argCount != 2 ==> run == Run(1, 0, false)
    ensures argCount == 2 ==> (run.restarted <==> FirstSuccess(moveOk, MaxRetries).Some?)
    ensures argCount == 2 ==> (run.exitCode == 0 <==> run.restarted)
    ensures run.restarted ==> run.attempts > 0 && moveOk(run.attempts - 1)
    ensures !run.restarted ==> run.exitCode == 1
  {
    if argCount != 2 {
      return Run(1, 0, false);
    }
    var attempts, retriesLeft := MoveLoop(moveOk);
    if retriesLeft == 0 {
      return Run(1, attempts, false);
    }
    run := Run(0, attempts, true);
  }
}
