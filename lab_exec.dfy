/** Running a downloaded program in roberta/lab.py: how Connector._exec_code
    turns the way the program ended into the exit value reported to the server,
    and how AbortHandler.run watches the brick's buttons while it runs. */
module Execution {
  import opened PyBuiltins
  import Ev3

  // ---------------------------------------------------------------------------
  // Connector._exec_code

  /** How the `compile`/`exec` of the downloaded program ended. */
  datatype RunOutcome =
    | CompileError           // compile() raised, e.g. a SyntaxError
    | Finished(result: int)  // exec returned; `result` is scope['result'] (0 unless the program set it)
    | ResultMissing          // the program deleted 'result' from its scope: KeyError
    | Crashed                // any other exception escaped the program
    | SoftKilled             // SystemExit: a soft abort, or the program called sys.exit
    | HardKilled             // KeyboardInterrupt from the handler's hard abort
    | Interrupted            // KeyboardInterrupt raised by the program itself

  /** What `_exec_code` does with it: return a value, or re-raise. */
  datatype ExecResult = ExitValue(value: int) | Reraised

  /** The value reported for a soft-killed program (128 + SIGTERM). */
  const SoftKillValue: int := 143

  /** The value reported for a program that failed. */
  const FailureValue: int := 1

  /** `_exec_code`: the program's result when it finished, 143 for SystemExit,
      1 for any other exception, and KeyboardInterrupt goes on up. */
  function ExecCode(o: RunOutcome): ExecResult {
    match o
    case Finished(v) => ExitValue(v)
    case SoftKilled => ExitValue(SoftKillValue)
    case HardKilled => Reraised
    case Interrupted => Reraised
    case _ => ExitValue(FailureValue)
  }

  /** Only a KeyboardInterrupt leaves no value; a program that did not finish
      otherwise reports 143 exactly when it was soft-killed and 1 otherwise. */
  lemma ExecCodeClassifies(o: RunOutcome)
    ensures ExecCode(o).Reraised? <==> o.HardKilled? || o.Interrupted?
    ensures o.Finished? ==> ExecCode(o) == ExitValue(o.result)
    ensures !o.Finished? && ExecCode(o).ExitValue? ==>
              (ExecCode(o) == ExitValue(SoftKillValue) <==> o.SoftKilled?)
    ensures !o.Finished? && ExecCode(o).ExitValue? ==>
              (ExecCode(o) == ExitValue(FailureValue) <==> !o.SoftKilled?)
  {
  }

  /** The exit value alone does not tell how the program ended: a program that
      sets `result = 143` is reported like a soft-killed one, and one that sets
      `result = 1` like one that crashed. */
  lemma ExitValueIsAmbiguous()
    ensures ExecCode(Finished(SoftKillValue)) == ExecCode(SoftKilled)
    ensures ExecCode(Finished(FailureValue)) == ExecCode(CompileError) == ExecCode(Crashed)
  {
  }

  /** The four runs exercised against `_exec_code`: 'pass' gives 0, a program
      that is not Python gives 1, one that sets `result = 42` gives 42, and an
      endless loop stopped by KeyboardInterrupt re-raises it. */
  lemma ExecCodeExamples()
    ensures ExecCode(Finished(0)) == ExitValue(0)
    ensures ExecCode(CompileError) == ExitValue(1)
    ensures ExecCode(Finished(42)) == ExitValue(42)
    ensures ExecCode(HardKilled) == Reraised
  {
  }

  // ---------------------------------------------------------------------------
  // AbortHandler.run

  /** What one tick of the handler decides. */
  datatype Tick = HardAbort | SoftAbort | Count(longPress: nat)

  /** Ticks the back button must already have been held for before the next
      one aborts hard: `long_press > 10`. */
  const LongPressTicks: nat := 10

  /** One pass of the loop body on the buttons pressed at that moment: 'back'
      held counts up and aborts hard once the count is past 10, enter together
      with down aborts softly, anything else resets the count. */
  function AbortTick(pressed: set<string>, longPress: nat): (t: Tick)
    ensures t.HardAbort? <==> Ev3.IsKeyPressed(pressed, "back") && longPress > LongPressTicks
    ensures t.SoftAbort? <==> !Ev3.IsKeyPressed(pressed, "back") &&
                              Ev3.IsKeyPressed(pressed, "enter") && Ev3.IsKeyPressed(pressed, "down")
    ensures t.Count? ==> t.longPress == (if Ev3.IsKeyPressed(pressed, "back") then longPress + 1 else 0)
  {
    if Ev3.IsKeyPressed(pressed, "back") then
      (if longPress > LongPressTicks then HardAbort else Count(longPress + 1))
    else if Ev3.IsKeyPressed(pressed, "enter") && Ev3.IsKeyPressed(pressed, "down") then SoftAbort
    else Count(0)
  }

  /** How watching a run ends: an abort at a given tick (counted from 0), or
      none before the samples run out. */
  datatype Signal = HardAbortAt(tick: nat) | SoftAbortAt(tick: nat) | NoAbort

  /** The handler's decisions from tick `i` on, with the count at `longPress`. */
  function Monitor(samples: seq<set<string>>, i: nat, longPress: nat): Signal
    requires i <= |samples|
    decreases |samples| - i
  {
    if i == |samples| then NoAbort
    else match AbortTick(samples[i], longPress)
      case HardAbort => HardAbortAt(i)
      case SoftAbort => SoftAbortAt(i)
      case Count(n) => Monitor(samples, i + 1, n)
  }

  predicate BackHeld(samples: seq<set<string>>, k: nat)
    requires k < |samples|
  {
    Ev3.Backspace in samples[k]
  }

  /** The count is the number of ticks the back button has been held for
      without a break, so a hard abort at tick `k` needs it held at the
      twelve ticks `k - 11` to `k`: just over a second at 0.1 s per tick. */
  lemma {:induction false} HardAbortNeedsLongPress(samples: seq<set<string>>, i: nat, longPress: nat, k: nat)
    requires i <= |samples| && longPress <= i
    requires forall j :: i - longPress <= j < i ==> BackHeld(samples, j)
    requires Monitor(samples, i, longPress) == HardAbortAt(k)
    ensures LongPressTicks + 1 <= k < |samples|
    ensures forall j :: k - (LongPressTicks + 1) <= j <= k ==> BackHeld(samples, j)
    decreases |samples| - i
  {
    Ev3.IsKeyPressedCases(samples[i], "back");
    match AbortTick(samples[i], longPress)
    case HardAbort =>
    case SoftAbort =>
    case Count(n) =>
      HardAbortNeedsLongPress(samples, i + 1, n, k);
  }

  /** Conversely, twelve ticks of 'back' from the start abort hard at the
      twelfth. */
  lemma {:induction false} LongPressAborts(samples: seq<set<string>>, i: nat)
    requires i <= LongPressTicks + 1 < |samples|
    requires forall j :: 0 <= j <= LongPressTicks + 1 ==> BackHeld(samples, j)
    ensures Monitor(samples, i, i) == HardAbortAt(LongPressTicks + 1)
    decreases LongPressTicks + 1 - i
  {
    assert BackHeld(samples, i);
    Ev3.IsKeyPressedCases(samples[i], "back");
    if i <= LongPressTicks {
      LongPressAborts(samples, i + 1);
    }
  }

  /** A soft abort happens at a tick where enter and down are held and back is
      not. */
  lemma {:induction false} SoftAbortNeedsEnterDown(samples: seq<set<string>>, i: nat, longPress: nat, k: nat)
    requires i <= |samples|
    requires Monitor(samples, i, longPress) == SoftAbortAt(k)
    ensures i <= k < |samples|
    ensures "enter" in samples[k] && "down" in samples[k] && Ev3.Backspace !in samples[k]
    decreases |samples| - i
  {
    Ev3.IsKeyPressedCases(samples[i], "back");
    match AbortTick(samples[i], longPress)
    case HardAbort =>
    case SoftAbort =>
      Ev3.IsKeyPressedCases(samples[i], "enter");
      Ev3.IsKeyPressedCases(samples[i], "down");
    case Count(n) =>
      SoftAbortNeedsEnterDown(samples, i + 1, n, k);
  }

  /** The thread object: its `running` flag is what `__exit__` clears when the
      program ends, and what the handler clears itself when it aborts. */
  class AbortHandler {
    var running: bool

    constructor()
      ensures running
    {
      running := true;
    }

    /** `__exit__`: stop watching; an exception from the program is re-raised
        (the result says whether it is swallowed). */
    method Exit(raised: bool) returns (swallow: bool)
      modifies this
      ensures !running
      ensures swallow <==> !raised
    {
      running := false;
      swallow := !raised;
    }

    /** `run`, one loop pass per sample of the pressed buttons, for as long as
        the handler is running. It stops at the first abort; a hard abort then
        ends the whole process. */
    method Run(samples: seq<set<string>>) returns (signal: Signal)
      modifies this
      ensures old(running) ==> signal == Monitor(samples, 0, 0)
      ensures !old(running) ==> signal == NoAbort
      ensures running <==> old(running) && signal.NoAbort?
    {
      var longPress: nat := 0;
      var i := 0;
      signal := NoAbort;
      while running && i < |samples|
        invariant 0 <= i <= |samples|
        invariant running ==> signal.NoAbort? && old(running)
        invariant running ==> Monitor(samples, i, longPress) == Monitor(samples, 0, 0)
        invariant !running ==> signal == (if old(running) then Monitor(samples, 0, 0) else NoAbort)
        invariant !running ==> !signal.NoAbort? || !old(running)
        decreases |samples| - i
      {
        match AbortTick(samples[i], longPress) {
          case HardAbort =>
            running := false;
            signal := HardAbortAt(i);
          case SoftAbort =>
            running := false;
            signal := SoftAbortAt(i);
          case Count(n) =>
            longPress := n;
        }
        i := i + 1;
      }
    }
  }

  /** Watching a run that ends: the program's own outcome unless the handler
      aborted it first; a soft abort raises SystemExit in the runner, a hard
      abort KeyboardInterrupt in the main thread. */
  function Supervised(own: RunOutcome, signal: Signal): RunOutcome {
    match signal
    case SoftAbortAt(_) => SoftKilled
    case HardAbortAt(_) => HardKilled
    case NoAbort => own
  }

  /** A soft abort is always reported as 143, a hard abort never reports. */
  lemma AbortedRunsReport(own: RunOutcome, signal: Signal)
    ensures signal.SoftAbortAt? ==> ExecCode(Supervised(own, signal)) == ExitValue(SoftKillValue)
    ensures signal.HardAbortAt? ==> ExecCode(Supervised(own, signal)) == Reraised
    ensures signal.NoAbort? ==> ExecCode(Supervised(own, signal)) == ExecCode(own)
  {
  }
}
