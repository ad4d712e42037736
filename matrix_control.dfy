/** The brightness controller of the LED matrix (matrix_control.c): a mode
    (AUTO follows the ambient light, MANUAL follows a commanded target), the
    manual target and the percentage currently applied, which fades toward
    the desired value by a tenth of the remaining distance per update. */
module MatrixControl {
  import opened Common
  import opened JsonSimple

  datatype Mode = Auto | Manual

  /** The controller's three globals: mode, manual target, applied percent. */
  datatype Brightness = Brightness(mode: Mode, target: uint8, current: uint8)

  predicate InRange(b: Brightness) {
    b.target <= 100 && b.current <= 100
  }

  /** The state `matrix_control_init` establishes: AUTO, 100 %, 100 %. */
  const INITIAL := Brightness(Auto, 100, 100)

  /** Size of the buffer the "mode" string is copied into. */
  const MODE_BUF: nat := 16

  /** `clamp_u8_0_100`: saturate an `int` into 0..100. */
  function Clamp(v: int): (r: uint8)
    ensures r <= 100
    ensures v < 0 ==> r == 0
    ensures v > 100 ==> r == 100
    ensures 0 <= v <= 100 ==> r == v
  {
    if v < 0 then 0 else if v > 100 then 100 else v
  }

  function Dist(a: int, b: int): nat {
    if a <= b then b - a else a - b
  }

  /** The fade step for a remaining distance `d`: a tenth, rounded up. */
  function CeilTenth(d: nat): nat {
    (d + 9) / 10
  }

  /** `step_towards_u8`: one fade step. It moves `cur` toward `tgt` by the
      rounded-up tenth of their distance and never passes `tgt`, so the
      clamping branches of the C code never fire. */
  function Step(cur: uint8, tgt: uint8): (r: uint8)
    ensures cur == tgt ==> r == tgt
    ensures cur < tgt ==> cur < r <= tgt && r == cur + CeilTenth(tgt - cur)
    ensures tgt < cur ==> tgt <= r < cur && r == cur - CeilTenth(cur - tgt)
    ensures Dist(r, tgt) == Dist(cur, tgt) - CeilTenth(Dist(cur, tgt))
  {
    if cur == tgt then cur
    else
      var delta := Dist(cur, tgt);
      var s := CeilTenth(delta);
      var step := if s < 1 then 1 else s;
      if cur < tgt then
        var n := cur + step;
        if n > tgt then tgt else n
      else
        var n := cur - step;
        if n < tgt then tgt else n
  }

  // ---------------------------------------------------------------------
  // Fading over several updates toward a fixed value
  // ---------------------------------------------------------------------

  /** `n` consecutive steps toward the same value. */
  function Fade(cur: uint8, tgt: uint8, n: nat): uint8
    decreases n
  {
    if n == 0 then cur else Fade(Step(cur, tgt), tgt, n - 1)
  }

  /** The distance left after `n` steps from distance `d`. */
  function Remaining(d: nat, n: nat): nat {
    if n == 0 || d == 0 then d else Remaining(d - CeilTenth(d), n - 1)
  }

  /** How many steps close a distance `d`. */
  function TicksToClose(d: nat): nat {
    if d == 0 then 0 else 1 + TicksToClose(d - CeilTenth(d))
  }

  /** Fading stays between the start and the target and leaves exactly the
      distance `Remaining` predicts. */
  lemma {:induction false} FadeDistance(cur: uint8, tgt: uint8, n: nat)
    decreases n
    ensures Dist(Fade(cur, tgt, n), tgt) == Remaining(Dist(cur, tgt), n)
    ensures Min(cur, tgt) <= Fade(cur, tgt, n) <= cur + tgt - Min(cur, tgt)
  {
    if n > 0 {
      FadeDistance(Step(cur, tgt), tgt, n - 1);
    }
  }

  /** The remaining distance is zero exactly once enough steps were taken,
      and it shrinks strictly before that. */
  lemma {:induction false} RemainingCloses(d: nat, n: nat)
    ensures Remaining(d, n) == 0 <==> n >= TicksToClose(d)
    ensures n < TicksToClose(d) ==> Remaining(d, n + 1) < Remaining(d, n)
  {
    if n > 0 && d > 0 {
      RemainingCloses(d - CeilTenth(d), n - 1);
    }
  }

  /** Repeated steps toward a fixed target reach it after exactly
      `TicksToClose` of them, strictly approach it until then, and stay on
      it afterwards. */
  lemma FadeReaches(cur: uint8, tgt: uint8, n: nat)
    ensures Fade(cur, tgt, n) == tgt <==> n >= TicksToClose(Dist(cur, tgt))
    ensures n < TicksToClose(Dist(cur, tgt)) ==>
      Dist(Fade(cur, tgt, n + 1), tgt) < Dist(Fade(cur, tgt, n), tgt)
  {
    FadeDistance(cur, tgt, n);
    FadeDistance(cur, tgt, n + 1);
    RemainingCloses(Dist(cur, tgt), n);
  }

  /** A fade across the whole range takes 28 updates, not the ten the
      "~10 steps" remark suggests. */
  lemma FullSwingTicks()
    ensures TicksToClose(100) == 28
  {
    TicksStep(100, 90); TicksStep(90, 81); TicksStep(81, 72); TicksStep(72, 64);
    TicksStep(64, 57); TicksStep(57, 51); TicksStep(51, 45); TicksStep(45, 40);
    TicksStep(40, 36); TicksStep(36, 32); TicksStep(32, 28);
    TicksFrom28();
  }

  lemma TicksFrom28()
    ensures TicksToClose(28) == 17
  {
    TicksStep(28, 25); TicksStep(25, 22); TicksStep(22, 19); TicksStep(19, 17);
    TicksStep(17, 15); TicksStep(15, 13); TicksStep(13, 11); TicksStep(11, 9);
    UnitSteps(9);
  }

  /** One step of `TicksToClose`. */
  lemma TicksStep(d: nat, e: nat)
    requires 0 < d && e == d - CeilTenth(d)
    ensures TicksToClose(d) == 1 + TicksToClose(e)
  {
  }

  /** Below ten, every step is a single unit. */
  lemma {:induction false} UnitSteps(d: nat)
    requires d <= 10
    ensures TicksToClose(d) == d
  {
    if d > 0 {
      UnitSteps(d - 1);
    }
  }

  // ---------------------------------------------------------------------
  // Commands
  // ---------------------------------------------------------------------

  /** The mode a payload selects: "auto" or "manual" as read into the
      16-byte buffer; any other string, or none, selects nothing. */
  function ModeOf(payload: seq<char>): Option<Mode> {
    match ScanString(payload, "mode", MODE_BUF)
    case NoString => None
    case Copied(t) =>
      if t == "auto" then Some(Auto) else if t == "manual" then Some(Manual) else None
  }

  /** The percent a payload carries: the first of "matrixPercent",
      "brightness" and "percent" that `json_get_int` reads successfully. */
  function PercentOf(payload: seq<char>): Option<int> {
    var a := GetInt(payload, "matrixPercent");
    if a.Some? then a
    else
      var b := GetInt(payload, "brightness");
      if b.Some? then b else GetInt(payload, "percent")
  }

  /** `matrix_control_apply_cmd_payload` on the controller state; `None` is a
      null payload. */
  function ApplyCmd(b: Brightness, payload: Option<seq<char>>): (r: Brightness)
    ensures r.current == b.current
    ensures InRange(b) ==> InRange(r)
    ensures payload.None? || payload.value == [] ==> r == b
    ensures payload.Some? && payload.value != [] ==>
      match PercentOf(payload.value)
      case Some(v) => r.mode == Manual && r.target == Clamp(v)
      case None =>
        r.target == b.target &&
        r.mode == (match ModeOf(payload.value) case Some(m) => m case None => b.mode)
  {
    if payload.None? || payload.value == [] then b
    else
      var p := payload.value;
      var mode := match ModeOf(p) case Some(m) => m case None => b.mode;
      match PercentOf(p)
      case Some(v) => Brightness(Manual, Clamp(v), b.current)
      case None => b.(mode := mode)
  }

  /** `matrix_control_update_from_lux`, with the lux reading already mapped
      to 0..100 by `lux_to_percent`: in AUTO the desired value is its
      inverse, in MANUAL the target; `current` takes one fade step. */
  function Update(b: Brightness, luxPercent: int): (r: Brightness)
    requires 0 <= luxPercent <= 100
    ensures r.mode == b.mode && r.target == b.target
    ensures r.current == Step(b.current, if b.mode == Manual then b.target else 100 - luxPercent)
    ensures InRange(b) ==> InRange(r)
  {
    var desired := if b.mode == Manual then b.target else 100 - luxPercent;
    b.(current := Step(b.current, desired))
  }

  /** Updates driven by a series of lux readings, oldest first. */
  function UpdateAll(b: Brightness, luxPercents: seq<int>): Brightness
    requires forall i :: 0 <= i < |luxPercents| ==> 0 <= luxPercents[i] <= 100
    decreases luxPercents
  {
    if luxPercents == [] then b else UpdateAll(Update(b, luxPercents[0]), luxPercents[1..])
  }

  /** In MANUAL mode the lux readings do not matter: the applied percent
      fades toward the target and settles on it after `TicksToClose`
      updates. */
  lemma {:induction false} ManualFollowsTarget(b: Brightness, luxPercents: seq<int>)
    requires forall i :: 0 <= i < |luxPercents| ==> 0 <= luxPercents[i] <= 100
    requires b.mode == Manual
    ensures UpdateAll(b, luxPercents) == b.(current := Fade(b.current, b.target, |luxPercents|))
    decreases luxPercents
  {
    if luxPercents != [] {
      ManualFollowsTarget(Update(b, luxPercents[0]), luxPercents[1..]);
    }
  }

  /** Neither commands nor updates ever leave 0..100. */
  lemma {:induction false} UpdateAllInRange(b: Brightness, luxPercents: seq<int>)
    requires forall i :: 0 <= i < |luxPercents| ==> 0 <= luxPercents[i] <= 100
    requires InRange(b)
    ensures InRange(UpdateAll(b, luxPercents))
    decreases luxPercents
  {
    if luxPercents != [] {
      UpdateAllInRange(Update(b, luxPercents[0]), luxPercents[1..]);
    }
  }

  // ---------------------------------------------------------------------
  // Commands of the shapes the header documents
  // ---------------------------------------------------------------------

  /** `{"mode":"<v>","matrixPercent":<n>}` (the header's example is
      `{"mode":"manual","matrixPercent":80}`) selects MANUAL at the clamped
      percent, whatever mode `v` names. */
  lemma ModeAndPercent(b: Brightness, v: seq<char>, n: int)
    requires '"' !in v && 'P' !in v
    ensures ApplyCmd(b, Some("{\"mode\":\"" + v + "\"," + "\"matrixPercent\":" + Decimal(n) + "}"))
         == Brightness(Manual, Clamp(n), b.current)
  {
    assert Field("matrixPercent") == "\"matrixPercent\":";
    var B := "{\"mode\":\"" + v + "\",";
    GetIntOfRendered(B, "matrixPercent", 7, [], n, "}");
    var P := "{\"mode\":\"" + v + "\"," + "\"matrixPercent\":" + Decimal(n) + "}";
    assert B + Field("matrixPercent") + [] == B + Field("matrixPercent");
    assert GetInt(P, "matrixPercent") == Some(n);
    assert PercentOf(P) == Some(n);
  }

  /** A percent under a later key overrides the mode the same payload names:
      `{"mode":"auto","brightness":<n>}` selects MANUAL. */
  lemma BrightnessOverridesMode(b: Brightness, v: seq<char>, n: int)
    requires '"' !in v && 'P' !in v && 'b' !in v
    ensures ApplyCmd(b, Some("{\"mode\":\"" + v + "\"," + "\"brightness\":" + Decimal(n) + "}"))
         == Brightness(Manual, Clamp(n), b.current)
  {
    var B := "{\"mode\":\"" + v + "\",";
    var P := B + "\"brightness\":" + Decimal(n) + "}";
    DecimalChars(n);
    NoMatrixPercent(P);
    BrightnessAfter(B, n);
  }

  /** A key whose value is not a number is skipped in favour of the next:
      `{"matrixPercent":"off","brightness":<n>}` reads `n`. */
  lemma NonNumberFallsThrough(b: Brightness, w: seq<char>, n: int)
    requires '"' !in w && 'b' !in w
    requires w != [] && !IsDigit(w[0]) && w[0] != '-' && !IsSpace(w[0])
    ensures ApplyCmd(b, Some("{" + "\"matrixPercent\":" + "\"" + w + "\"," + "\"brightness\":" + Decimal(n) + "}"))
         == Brightness(Manual, Clamp(n), b.current)
  {
    var B := "{" + "\"matrixPercent\":" + "\"" + w + "\",";
    var tail := "\"," + "\"brightness\":" + Decimal(n) + "}";
    Regroup("{" + "\"matrixPercent\":" + "\"", w, "\",", "\"brightness\":", Decimal(n), "}");
    NonNumberRejected(w, tail);
    BrightnessAfter(B, n);
  }

  /** `a + w + b + c + d + e` read as `a` followed by `w` and the rest. */
  lemma Regroup(a: seq<char>, w: seq<char>, b: seq<char>, c: seq<char>, d: seq<char>, e: seq<char>)
    ensures a + w + b + c + d + e == a + (w + (b + c + d + e))
  {
  }

  /** The matrixPercent key is not found in a payload without a 'P'. */
  lemma NoMatrixPercent(p: seq<char>)
    requires 'P' !in p
    ensures GetInt(p, "matrixPercent") == None
  {
    KeyAbsent(p, "matrixPercent", 7);
  }

  /** `"brightness":<n>}` after text without a 'b' is read as `n`. */
  lemma BrightnessAfter(before: seq<char>, n: int)
    requires 'b' !in before
    ensures GetInt(before + "\"brightness\":" + Decimal(n) + "}", "brightness") == Some(n)
  {
    assert Field("brightness") == "\"brightness\":";
    GetIntOfRendered(before, "brightness", 1, [], n, "}");
    assert before + Field("brightness") + [] == before + Field("brightness");
  }

  /** `"matrixPercent"` opening the payload with a quoted non-number is not
      read. */
  lemma NonNumberRejected(w: seq<char>, tail: seq<char>)
    requires w != [] && !IsDigit(w[0]) && w[0] != '-' && !IsSpace(w[0]) && w[0] != '"'
    ensures GetInt("{" + "\"matrixPercent\":" + "\"" + (w + tail), "matrixPercent") == None
  {
    var rest := w + tail;
    assert rest[0] == w[0];
    OpeningKeyUnmatched("matrixPercent");
    GetIntRejectsNonNumber(['{'], "matrixPercent", 0, ['"'], [], rest);
    assert "{" == ['{'] && "\"" == ['"'];
    assert Field("matrixPercent") == "\"matrixPercent\":";
    assert ['{'] + Field("matrixPercent") + ['"'] + [] == ['{'] + Field("matrixPercent") + ['"'];
  }

  /** `{"mode":"<v>"}` with no percent selects the mode `v` names ("auto" or
      "manual") and keeps the target; any other name changes nothing. */
  lemma ModeOnly(b: Brightness, v: seq<char>)
    requires '"' !in v && 'P' !in v && 'g' !in v && 'c' !in v
    ensures ApplyCmd(b, Some("{" + "\"mode\":" + "\"" + v + "\"" + "}"))
         == if v == "auto" then b.(mode := Auto)
            else if v == "manual" then b.(mode := Manual)
            else b
  {
    var P := "{" + "\"mode\":" + "\"" + v + "\"" + "}";
    assert PercentOf(P) == None by {
      NoPercentKey(P, 7, 4, 4);
    }
    ModeOfOpening(v, "}");
  }

  /** The characters of a rendered integer are digits and '-'. */
  lemma DecimalChars(n: int)
    ensures forall i :: 0 <= i < |Decimal(n)| ==> Decimal(n)[i] == '-' || IsDigit(Decimal(n)[i])
  {
    var m: nat := if n < 0 then -n else n;
    assert AllDigits(Digits(m));
    if n < 0 {
      forall i | 1 <= i < |Decimal(n)|
        ensures IsDigit(Decimal(n)[i])
      {
        assert Decimal(n)[i] == Digits(m)[i - 1];
      }
    }
  }

  /** A payload that opens with a quoted "mode" value selects exactly the
      mode that value names: the 16-byte buffer may cut a long value, but a
      cut value never reads as "auto" or "manual". */
  lemma ModeOfOpening(v: seq<char>, rest: seq<char>)
    requires '"' !in v
    ensures ModeOf("{" + "\"mode\":" + "\"" + v + "\"" + rest)
         == if v == "auto" then Some(Auto) else if v == "manual" then Some(Manual) else None
  {
    OpeningKeyUnmatched("mode");
    GetStringOfRendered(['{'], "mode", 0, [], v, rest, MODE_BUF);
    assert "{" == ['{'] && "\"" == ['"'];
    assert Field("mode") == "\"mode\":";
    assert ['{'] + Field("mode") + [] == ['{'] + Field("mode");
    var t := Fit(v, MODE_BUF - 1);
    assert t == "auto" <==> v == "auto";
    assert t == "manual" <==> v == "manual";
  }

  /** No percent is read when each of the three keys misses a character. */
  lemma NoPercentKey(p: seq<char>, i: nat, j: nat, k: nat)
    requires i < |KeyPattern("matrixPercent")| && KeyPattern("matrixPercent")[i] !in p
    requires j < |KeyPattern("brightness")| && KeyPattern("brightness")[j] !in p
    requires k < |KeyPattern("percent")| && KeyPattern("percent")[k] !in p
    ensures PercentOf(p) == None
  {
    KeyAbsent(p, "matrixPercent", i);
    KeyAbsent(p, "brightness", j);
    KeyAbsent(p, "percent", k);
  }

  // ---------------------------------------------------------------------
  // The controller as the firmware runs it
  // ---------------------------------------------------------------------

  /** The controller's module globals `g_mode`, `g_target_percent` and
      `g_current_percent`; the three getters read these fields. */
  class Controller {
    var mode: Mode
    var target: uint8
    var current: uint8

    function State(): Brightness
      reads this
    {
      Brightness(mode, target, current)
    }

    /** `matrix_control_init`. */
    constructor Init()
      ensures State() == INITIAL
    {
      mode := Auto;
      target := 100;
      current := 100;
    }

    /** `matrix_control_apply_cmd_payload`: the mode string is read into a
        zeroed 16-byte buffer and compared with `strcmp`; then the three
        percent keys are tried in order. */
    method ApplyCmdPayload(payload: Option<seq<char>>)
      requires payload.Some? ==> NoNul(payload.value)
      modifies this
      ensures State() == ApplyCmd(old(State()), payload)
    {
      if payload.None? || payload.value == [] {
        return;
      }
      var p := payload.value;
      var modeBuf := new char[MODE_BUF](_ => '\0');
      var ok := JsonGetString(p, "mode", modeBuf);
      if ok {
        var m := CStr(modeBuf[..]);
        if m == "auto" {
          mode := Auto;
        } else if m == "manual" {
          mode := Manual;
        }
      }
      var v := JsonGetInt(p, "matrixPercent");
      if v.None? {
        v := JsonGetInt(p, "brightness");
      }
      if v.None? {
        v := JsonGetInt(p, "percent");
      }
      if v.Some? {
        target := Clamp(v.value);
        if mode != Manual {
          mode := Manual;
        }
      }
    }

    /** `matrix_control_update_from_lux`: one fade step toward the desired
        value; returns the new applied percent. */
    method UpdateFromLux(luxPercent: int) returns (cur: uint8)
      requires 0 <= luxPercent <= 100
      modifies this
      ensures State() == Update(old(State()), luxPercent)
      ensures cur == current
    {
      var desired: uint8 := 0;
      if mode == Manual {
        desired := target;
      } else {
        desired := 100 - luxPercent;
      }
      cur := current;
      cur := Step(cur, desired);
      current := cur;
    }
  }
}
