/** The dashboard's pure mappings from readings to presentation
    (frontend/src/App.js): the PM2.5 colour ramp, the air-quality colour and
    label, the cleanliness band of the whole dashboard, and the driver value
    that steers the particle field. */
module Readings {
  import opened Json

  function Max(a: real, b: real): real
  {
    if a >= b then a else b
  }

  function Min(a: real, b: real): real
  {
    if a <= b then a else b
  }

  /** A device's PM2.5 reading as `air_quality_value || 0` yields it to
      Math.max: a number as it is, `true` as 1, every other falsy value as 0.
      A string reading is read as 0 (see README). */
  function Pm(v: Value): (pm: real)
    ensures v.Num? ==> pm == v.n
    ensures v == Bool(true) ==> pm == 1.0
    ensures !v.Num? && v != Bool(true) ==> pm == 0.0
  {
    match v
    case Num(x) => x
    case Bool(b) => if b then 1.0 else 0.0
    case Null => 0.0
    case Str(_) => 0.0
  }

  function Reading(d: DeviceInfo): real
  {
    Pm(d.airQualityValue)
  }

  /** Math.max of `seed` and every device's reading, folded left to right. */
  function FoldMax(seed: real, ds: seq<DeviceInfo>): (m: real)
    ensures seed <= m
    ensures forall i :: 0 <= i < |ds| ==> Reading(ds[i]) <= m
    ensures m == seed || exists i :: 0 <= i < |ds| && m == Reading(ds[i])
  {
    if ds == [] then seed
    else
      var rest := FoldMax(seed, ds[..|ds| - 1]);
      assert forall i :: 0 <= i < |ds| - 1 ==> ds[..|ds| - 1][i] == ds[i];
      Max(rest, Reading(ds[|ds| - 1]))
  }

  /** The highest reading of the dashboard's devices, 0 when there are none
      (the reduce behind the cleanliness band). */
  function MaxReading(ds: seq<DeviceInfo>): real
  {
    FoldMax(0.0, ds)
  }

  /** The driver value `Math.max(1, ...readings)` stored as the particle
      field's target on every devices_update. */
  function Driver(ds: seq<DeviceInfo>): (driver: real)
    ensures 1.0 <= driver
    ensures forall i :: 0 <= i < |ds| ==> Reading(ds[i]) <= driver
    ensures driver == 1.0 || exists i :: 0 <= i < |ds| && driver == Reading(ds[i])
  {
    FoldMax(1.0, ds)
  }

  /** The driver is the highest reading floored at 1: the two folds only
      differ in their seed. */
  lemma {:induction false} DriverIsFlooredMax(ds: seq<DeviceInfo>)
    ensures Driver(ds) == Max(1.0, MaxReading(ds))
    ensures Driver(ds) >= 1.0
  {
    if ds != [] {
      DriverIsFlooredMax(ds[..|ds| - 1]);
    }
  }

  datatype Cleanliness = Clean | AlmostClean | Dusty

  /** The CSS class the dashboard carries: one per band. */
  function ClassName(c: Cleanliness): (name: string)
    ensures name in {"clean", "almost-clean", "dusty"}
    ensures name == "dusty" <==> c == Dusty
    ensures name == "clean" <==> c == Clean
  {
    match c
    case Clean => "clean"
    case AlmostClean => "almost-clean"
    case Dusty => "dusty"
  }

  /** The cleanliness band: dusty as soon as one device reads above 50,
      clean only while every device reads at most 20. */
  function CleanlinessOf(ds: seq<DeviceInfo>): (c: Cleanliness)
    ensures c == Dusty <==> exists i :: 0 <= i < |ds| && Reading(ds[i]) > 50.0
    ensures c == Clean <==> forall i :: 0 <= i < |ds| ==> Reading(ds[i]) <= 20.0
  {
    var maxPm := MaxReading(ds);
    if maxPm > 50.0 then Dusty
    else if maxPm > 20.0 then AlmostClean
    else Clean
  }

  const NoReadingColor: string := "#94a3b8"
  const LevelColors: seq<string> := ["#0ea5e9", "#34d399", "#fbbf24", "#f43f5e"]
  const LevelLabels: seq<string> := ["Excellent", "Good", "Fair", "Poor"]

  /** getAirQualityColor: a `switch` on the level, so only the numbers
      1 to 4 select a colour. */
  function AirQualityColor(level: Value): (color: string)
    ensures color != NoReadingColor <==> level.Num? && level.n in {1.0, 2.0, 3.0, 4.0}
    ensures forall k :: 0 <= k < 4 && level == Num((k + 1) as real) ==> color == LevelColors[k]
  {
    match level
    case Num(x) =>
      if x == 1.0 then LevelColors[0]
      else if x == 2.0 then LevelColors[1]
      else if x == 3.0 then LevelColors[2]
      else if x == 4.0 then LevelColors[3]
      else NoReadingColor
    case _ => NoReadingColor
  }

  /** The label lookup `labels[level - 1] || 'N/A'`: the subtraction turns
      null into -1 and a boolean into 0 or -1; only an integral index from 0
      to 3 finds a label. */
  function QualityLabel(level: Value): (text: string)
    ensures text != "N/A" <==> level == Bool(true) || (level.Num? && level.n in {1.0, 2.0, 3.0, 4.0})
    ensures level == Bool(true) ==> text == LevelLabels[0]
    ensures forall k :: 0 <= k < 4 && level == Num((k + 1) as real) ==> text == LevelLabels[k]
  {
    var index: real :=
      match level
      case Num(x) => x - 1.0
      case Null => -1.0
      case Bool(b) => if b then 0.0 else -1.0
      case Str(_) => -1.0;
    if index == 0.0 then LevelLabels[0]
    else if index == 1.0 then LevelLabels[1]
    else if index == 2.0 then LevelLabels[2]
    else if index == 3.0 then LevelLabels[3]
    else "N/A"
  }

  /** Colour and label agree on every level but `true`: both pick tier `k`
      for the number k + 1, and both fall back otherwise. (For `true` the
      label says "Excellent" while the colour is the fallback grey.) */
  lemma LabelMatchesColor(level: Value)
    requires level != Bool(true)
    ensures QualityLabel(level) == "N/A" <==> AirQualityColor(level) == NoReadingColor
    ensures forall k :: 0 <= k < 4 ==>
              (QualityLabel(level) == LevelLabels[k] <==> AirQualityColor(level) == LevelColors[k])
  {
  }

  // ---------------------------------------------------------------------
  // The PM2.5 colour ramp (getPM25Color)

  datatype Rgb = Rgb(r: int, g: int, b: int)

  datatype Stop = Stop(point: real, color: Rgb)

  /** Blue at 0, green at 40, orange at 85, red at 120. */
  const Stops: seq<Stop> := [
    Stop(0.0, Rgb(14, 165, 233)),
    Stop(40.0, Rgb(52, 211, 153)),
    Stop(85.0, Rgb(251, 191, 36)),
    Stop(120.0, Rgb(244, 63, 94))
  ]

  /** Math.round: the nearest integer, halves rounded up. */
  function Round(x: real): (n: int)
    ensures x - 0.5 < n as real <= x + 0.5
  {
    (x + 0.5).Floor
  }

  /** Stop `k` and the next one enclose `value` (lower bound included). */
  predicate Brackets(value: real, k: nat)
  {
    k + 1 < |Stops| && Stops[k].point <= value < Stops[k + 1].point
  }

  /** The first enclosing pair at index `from` or later, or `|Stops| - 1`
      when there is none. */
  function FirstBracket(value: real, from: nat): (k: nat)
    requires from < |Stops|
    ensures from <= k < |Stops|
    ensures k + 1 < |Stops| ==> Brackets(value, k)
    ensures forall j :: from <= j < k ==> !Brackets(value, j)
    ensures k == |Stops| - 1 ==> forall j :: from <= j < |Stops| - 1 ==> !Brackets(value, j)
    decreases |Stops| - from
  {
    if from == |Stops| - 1 || Brackets(value, from) then from
    else FirstBracket(value, from + 1)
  }

  /** The two stops the colour is interpolated between: the first enclosing
      pair, or the first and the last stop when no pair encloses the value. */
  function Bracket(value: real): (nat, nat)
  {
    var k := FirstBracket(value, 0);
    if k + 1 < |Stops| then (k, k + 1) else (0, |Stops| - 1)
  }

  function Lerp(a: int, b: int, percent: real): int
  {
    Round(a as real + (b - a) as real * percent)
  }

  /** The colour getPM25Color gives a reading. */
  function PM25ColorOf(value: real): Rgb
  {
    var (lo, hi) := Bracket(value);
    var lower := Stops[lo];
    var upper := Stops[hi];
    var range := upper.point - lower.point;
    var percent := if range != 0.0 then Min(1.0, (value - lower.point) / range) else 1.0;
    Rgb(Lerp(lower.color.r, upper.color.r, percent),
        Lerp(lower.color.g, upper.color.g, percent),
        Lerp(lower.color.b, upper.color.b, percent))
  }

  /** getPM25Color: a search for the enclosing pair of stops, then a linear
      interpolation of each channel, rounded. */
  method PM25Color(value: real) returns (rgb: Rgb)
    ensures rgb == PM25ColorOf(value)
  {
    var lower := Stops[0];
    var upper := Stops[|Stops| - 1];
    var i := 0;
    while i < |Stops| - 1
      invariant 0 <= i <= |Stops| - 1
      invariant forall j :: 0 <= j < i ==> !Brackets(value, j)
      invariant lower == Stops[0] && upper == Stops[|Stops| - 1]
    {
      if value >= Stops[i].point && value < Stops[i + 1].point {
        lower := Stops[i];
        upper := Stops[i + 1];
        break;
      }
      i := i + 1;
    }
    assert (lower, upper) == (Stops[Bracket(value).0], Stops[Bracket(value).1]);
    var range := upper.point - lower.point;
    var percent := if range != 0.0 then Min(1.0, (value - lower.point) / range) else 1.0;
    rgb := Rgb(Lerp(lower.color.r, upper.color.r, percent),
               Lerp(lower.color.g, upper.color.g, percent),
               Lerp(lower.color.b, upper.color.b, percent));
  }

  /** Each stop's reading gets exactly that stop's colour. */
  lemma ColorAtStops(k: nat)
    requires k < |Stops|
    ensures PM25ColorOf(Stops[k].point) == Stops[k].color
  {
    if k == 0 {
      assert Brackets(0.0, 0);
    } else if k == 1 {
      assert !Brackets(40.0, 0) && Brackets(40.0, 1);
    } else if k == 2 {
      assert !Brackets(85.0, 0) && !Brackets(85.0, 1) && Brackets(85.0, 2);
    } else {
      assert !Brackets(120.0, 0) && !Brackets(120.0, 1) && !Brackets(120.0, 2);
    }
  }

  /** A fraction of a non-negative amount lies between 0 and the amount. */
  lemma Fraction(d: real, percent: real)
    requires 0.0 <= d && 0.0 <= percent <= 1.0
    ensures 0.0 <= d * percent <= d
  {
    assert d * (1.0 - percent) >= 0.0;
  }

  /** Rounding a point between two integers stays between them. */
  lemma LerpBetween(a: int, b: int, percent: real)
    requires 0.0 <= percent <= 1.0
    ensures a <= b ==> a <= Lerp(a, b, percent) <= b
    ensures b <= a ==> b <= Lerp(a, b, percent) <= a
  {
    if a <= b {
      Fraction((b - a) as real, percent);
    } else {
      Fraction((a - b) as real, percent);
      assert (b - a) as real * percent == -((a - b) as real * percent);
    }
  }

  predicate Within(x: int, a: int, b: int)
  {
    (a <= x <= b) || (b <= x <= a)
  }

  /** For every non-negative reading, the colour lies channel by channel
      between the two stops that enclose the reading (the last stop from 120
      on), so every channel is a valid 0-255 value. */
  lemma ColorBetweenStops(value: real)
    requires 0.0 <= value
    ensures var (lo, hi) := Bracket(value);
            var c := PM25ColorOf(value);
            && (hi == lo + 1 ==> Stops[lo].point <= value < Stops[hi].point)
            && (hi != lo + 1 ==> value >= Stops[|Stops| - 1].point)
            && Within(c.r, Stops[lo].color.r, Stops[hi].color.r)
            && Within(c.g, Stops[lo].color.g, Stops[hi].color.g)
            && Within(c.b, Stops[lo].color.b, Stops[hi].color.b)
            && 0 <= c.r <= 255 && 0 <= c.g <= 255 && 0 <= c.b <= 255
  {
    var (lo, hi) := Bracket(value);
    var lower := Stops[lo];
    var upper := Stops[hi];
    var range := upper.point - lower.point;
    if FirstBracket(value, 0) + 1 >= |Stops| {
      assert !Brackets(value, 0) && !Brackets(value, 1) && !Brackets(value, 2);
    }
    assert range > 0.0;
    var percent := Min(1.0, (value - lower.point) / range);
    assert 0.0 <= percent;
    LerpBetween(lower.color.r, upper.color.r, percent);
    LerpBetween(lower.color.g, upper.color.g, percent);
    LerpBetween(lower.color.b, upper.color.b, percent);
  }

  /** From 120 on the ramp saturates at red. */
  lemma ColorSaturates(value: real)
    requires value >= 120.0
    ensures PM25ColorOf(value) == Stops[|Stops| - 1].color
  {
    assert !Brackets(value, 0) && !Brackets(value, 1) && !Brackets(value, 2);
  }
}
