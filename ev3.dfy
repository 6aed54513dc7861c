/** The part of roberta/ev3.py that is not hardware access: the clamp helper,
    the key names accepted by Hal.isKeyPressed, the class-global list of
    running sub-processes (Hal.cmds) kept by waitCmd and resetState, the colour
    table of the colour sensor and the mode check of getMotorTachoValue. */
module Ev3 {
  import opened PyBuiltins

  // ---------------------------------------------------------------------------
  // clamp

  /** `clamp(v, mi, ma)`: `mi` below the range, `ma` above it, `v` inside. */
  function Clamp(v: int, mi: int, ma: int): (r: int)
    ensures mi <= ma ==> mi <= r <= ma
    ensures mi <= v <= ma ==> r == v
    ensures r == v || r == mi || r == ma
    ensures v < mi ==> r == mi
    ensures mi <= v && v > ma ==> r == ma
  {
    if v < mi then mi else if v > ma then ma else v
  }

  /** On a proper range the clamp is the usual `min(max(v, mi), ma)`, and it
      moves the value as little as possible. */
  lemma ClampIsNearest(v: int, mi: int, ma: int, x: int)
    requires mi <= ma && mi <= x <= ma
    ensures Clamp(v, mi, ma) == Min(Max(v, mi), ma)
    ensures Dist(v, Clamp(v, mi, ma)) <= Dist(v, x)
  {
  }

  function Min(a: int, b: int): int { if a <= b then a else b }
  function Max(a: int, b: int): int { if a >= b then a else b }
  function Dist(a: int, b: int): nat { if a >= b then a - b else b - a }

  /** Clamping twice changes nothing. */
  lemma ClampIdempotent(v: int, mi: int, ma: int)
    requires mi <= ma
    ensures Clamp(Clamp(v, mi, ma), mi, ma) == Clamp(v, mi, ma)
  {
  }

  /** The percentage every motor speed and duty-cycle command uses:
      `clamp(speed_pct, -100, 100)`. */
  function MotorPercent(pct: int): (r: int)
    ensures -100 <= r <= 100
    ensures -100 <= pct <= 100 ==> r == pct
    ensures pct > 100 ==> r == 100
    ensures pct < -100 ==> r == -100
  {
    Clamp(pct, -100, 100)
  }

  /** Mirrored speeds give mirrored percentages (what `regulatedDrive` relies
      on when it negates the clamped speed for 'backward'). */
  lemma MotorPercentOdd(pct: int)
    ensures MotorPercent(-pct) == -MotorPercent(pct)
  {
  }

  // ---------------------------------------------------------------------------
  // isKeyPressed

  /** The names ev3dev gives the brick's buttons in `buttons_pressed`. */
  const Backspace: string := "backspace"

  /** `key_aliases`: 'escape' and 'back' are other names for 'backspace'. */
  function ResolveKey(key: string): (k: string)
    ensures key == "escape" || key == "back" ==> k == Backspace
    ensures key != "escape" && key != "back" ==> k == key
  {
    if key == "escape" || key == "back" then Backspace else key
  }

  /** `Hal.isKeyPressed(key)` given the set of pressed buttons: 'any' and '*'
      ask whether some button is down, every other name (after resolving the
      aliases) whether that button is down. */
  function IsKeyPressed(pressed: set<string>, key: string): bool {
    if key == "any" || key == "*" then pressed != {}
    else ResolveKey(key) in pressed
  }

  /** The key tests, case by case. */
  lemma IsKeyPressedCases(pressed: set<string>, key: string)
    ensures key == "any" || key == "*" ==> (IsKeyPressed(pressed, key) <==> exists b :: b in pressed)
    ensures key == "back" || key == "escape" ==> (IsKeyPressed(pressed, key) <==> Backspace in pressed)
    ensures key != "any" && key != "*" && key != "back" && key != "escape" ==>
              (IsKeyPressed(pressed, key) <==> key in pressed)
  {
    if key == "any" || key == "*" {
      if pressed != {} {
        var b :| b in pressed;
      }
    }
  }

  /** A button that is reported pressed under any of its names makes 'any'
      report a pressed button too. */
  lemma PressedKeyIsAny(pressed: set<string>, key: string)
    requires IsKeyPressed(pressed, key)
    ensures IsKeyPressed(pressed, "any")
  {
    if key != "any" && key != "*" {
      assert ResolveKey(key) in pressed;
    }
  }

  // ---------------------------------------------------------------------------
  // getColorSensorColour

  const ColourNames: seq<string> := ["none", "black", "blue", "green", "yellow", "red", "white", "brown"]

  /** `colors[int(reading)]`: a reading 0..7 names its colour, a negative one
      counts from the end as Python indexing does, anything else is an
      IndexError. */
  function ColourName(reading: int): (r: Result<string>)
    ensures 0 <= reading < 8 ==> r == Ok(ColourNames[reading])
    ensures -8 <= reading < 0 ==> r == Ok(ColourNames[reading + 8])
    ensures r.Err? <==> reading < -8 || reading >= 8
    ensures r.Err? ==> r.error == IndexError
  {
    At(ColourNames, reading)
  }

  /** The sensor's colour codes, one by one. */
  lemma ColourTable()
    ensures ColourName(0) == Ok("none") && ColourName(1) == Ok("black")
    ensures ColourName(2) == Ok("blue") && ColourName(3) == Ok("green")
    ensures ColourName(4) == Ok("yellow") && ColourName(5) == Ok("red")
    ensures ColourName(6) == Ok("white") && ColourName(7) == Ok("brown")
    ensures ColourName(8) == Err(IndexError)
  {
  }

  // ---------------------------------------------------------------------------
  // getMotorTachoValue

  datatype TachoMode = Degree | Rotation | Distance

  /** The mode check of `getMotorTachoValue`: 'degree', 'rotation' and
      'distance' select a conversion, every other mode is a ValueError. */
  function MotorTachoMode(mode: string): (r: Result<TachoMode>)
    ensures r.Ok? <==> mode in {"degree", "rotation", "distance"}
    ensures r.Err? ==> r.error == ValueError
    ensures r == Ok(Degree) <==> mode == "degree"
    ensures r == Ok(Rotation) <==> mode == "rotation"
    ensures r == Ok(Distance) <==> mode == "distance"
  {
    if mode == "degree" then Ok(Degree)
    else if mode == "rotation" then Ok(Rotation)
    else if mode == "distance" then Ok(Distance)
    else Err(ValueError)
  }

  // ---------------------------------------------------------------------------
  // Hal.cmds

  /** A sub-process started with popen, by identity. */
  type Proc = nat

  /** `Hal.cmds` after `waitCmd(cmd)`: the entry appended on entry stays when the
      wait is interrupted, otherwise `list.remove` takes out the first entry
      equal to it. Waiting on None fails on `None.poll()` after the append. */
  function AfterWait(cmds: seq<Option<Proc>>, cmd: Option<Proc>, interrupted: bool): seq<Option<Proc>> {
    if cmd.None? || interrupted then cmds + [cmd] else RemoveFirst(cmds + [cmd], cmd)
  }

  /** Python's `list.remove(x)` on a list that holds `x`. */
  function RemoveFirst<T(==)>(s: seq<T>, x: T): (r: seq<T>)
    requires x in s
    ensures |r| == |s| - 1
    ensures multiset(r) == multiset(s) - multiset{x}
  {
    assert s == [s[0]] + s[1..];
    if s[0] == x then s[1..]
    else
      [s[0]] + RemoveFirst(s[1..], x)
  }

  /** Removing the entry that was just appended, when no equal entry comes
      before it, gives the list back. */
  lemma {:induction false} RemoveAppended<T>(s: seq<T>, x: T)
    requires x !in s
    ensures RemoveFirst(s + [x], x) == s
  {
    if s != [] {
      assert (s + [x])[1..] == s[1..] + [x];
      RemoveAppended(s[1..], x);
    }
  }

  /** A completed wait leaves the set of waited-on processes as it was:
      unchanged outright when the process was not listed before, and the same
      entries in another order otherwise. */
  lemma WaitRestores(cmds: seq<Option<Proc>>, p: Proc)
    ensures Some(p) !in cmds ==> AfterWait(cmds, Some(p), false) == cmds
    ensures multiset(AfterWait(cmds, Some(p), false)) == multiset(cmds)
  {
    if Some(p) !in cmds { RemoveAppended(cmds, Some(p)); }
  }

  /** The processes resetState terminates, in list order: every entry that is
      not None. */
  function Running(cmds: seq<Option<Proc>>): (ps: seq<Proc>)
    ensures forall p :: p in ps <==> Some(p) in cmds
  {
    if cmds == [] then []
    else
      var rest := Running(cmds[1..]);
      assert forall p :: Some(p) in cmds <==> cmds[0] == Some(p) || Some(p) in cmds[1..];
      if cmds[0].Some? then [cmds[0].value] + rest else rest
  }

  /** A wait that is interrupted leaves its process for resetState to
      terminate. */
  lemma InterruptedWaitIsTerminated(cmds: seq<Option<Proc>>, p: Proc)
    ensures p in Running(AfterWait(cmds, Some(p), true))
  {
    assert AfterWait(cmds, Some(p), true)[|cmds|] == Some(p);
  }

  /** The class-global state of `Hal`: the sub-processes being waited on, and
      the processes terminated so far. */
  class Hal {
    var cmds: seq<Option<Proc>>
    var terminated: seq<Proc>

    constructor()
      ensures cmds == [] && terminated == []
    {
      cmds := [];
      terminated := [];
    }

    /** `waitCmd(cmd)`: the process is listed while `poll()` reports it running
        (`polls` times), and the wait is interrupted at the busy-wait numbered
        `interruptAt` when that comes first. Returns whether it was
        interrupted, in which case the exception leaves the entry behind. */
    method WaitCmd(cmd: Option<Proc>, polls: nat, interruptAt: Option<nat>) returns (interrupted: bool, failed: bool)
      modifies this
      ensures failed <==> cmd.None?
      ensures interrupted <==> cmd.Some? && interruptAt.Some? && interruptAt.value < polls
      ensures cmds == AfterWait(old(cmds), cmd, interrupted) && terminated == old(terminated)
    {
      cmds := cmds + [cmd];
      interrupted := false;
      failed := false;
      if cmd.None? {
        failed := true;
        return;
      }
      var i := 0;
      while i < polls
        invariant 0 <= i <= polls
        invariant !interrupted
        invariant interruptAt.Some? ==> interruptAt.value >= i
      {
        if interruptAt == Some(i) {
          interrupted := true;
          return;
        }
        i := i + 1;
      }
      cmds := RemoveFirst(cmds, cmd);
    }

    /** `resetState`: every listed process is terminated in list order, and the
        list is emptied. */
    method ResetState()
      modifies this
      ensures terminated == old(terminated) + Running(old(cmds))
      ensures cmds == []
    {
      var i := 0;
      while i < |cmds|
        invariant 0 <= i <= |cmds|
        invariant terminated + Running(cmds[i..]) == old(terminated) + Running(old(cmds))
      {
        assert cmds[i..] == [cmds[i]] + cmds[i + 1..];
        if cmds[i].Some? {
          terminated := terminated + [cmds[i].value];
        }
        i := i + 1;
      }
      cmds := [];
    }
  }
}
