/** The twelve-dimensional candidate of the reproduction protocol: validation, the rounding applied before execution,
    the job name that decides the result directory, and what rounding does to the recorded objective. */
module Candidate {
  import opened Wrappers

  // ----- the domain -----

  const PARAMETERS := ["CLK", "UTIL", "TNS_End_Percent", "GP_PAD", "DP_PAD", "DPO", "PIN_ADJ", "UP_ADJ", "LB_ADDON",
                       "HIER_SYNTH", "CTS_CSIZE", "CTS_CDIA"]
  const NAMES: set<string> := {"CLK", "UTIL", "TNS_End_Percent", "GP_PAD", "DP_PAD", "DPO", "PIN_ADJ", "UP_ADJ",
                               "LB_ADDON", "HIER_SYNTH", "CTS_CSIZE", "CTS_CDIA"}
  const FRACTIONAL: set<string> := {"CLK", "PIN_ADJ", "UP_ADJ", "LB_ADDON"}

  /** A member of a proposed candidate: a number, or anything else (a Boolean counts as something else). */
  datatype Member = Number(value: real) | NotNumber

  type Point = map<string, real>

  /** Bounds in thousandths. */
  function Bounds(name: string, asap7: bool): (int, int) {
    if name == "CLK" then (if asap7 then (100_000, 10_000_000) else (500, 15_000))
    else if name == "UTIL" then (20_000, 69_000)
    else if name == "TNS_End_Percent" then (0, 100_000)
    else if name == "GP_PAD" || name == "DP_PAD" then (0, 3_000)
    else if name == "PIN_ADJ" || name == "UP_ADJ" then (100, 700)
    else if name == "LB_ADDON" then (0, 990)
    else if name == "CTS_CSIZE" then (10_000, 40_000)
    else if name == "CTS_CDIA" then (80_000, 120_000)
    else (0, 1_000)
  }

  predicate Integral(x: real) {
    x.Floor as real == x
  }

  predicate Bounded(name: string, x: real, asap7: bool) {
    Bounds(name, asap7).0 as real <= 1000.0 * x <= Bounds(name, asap7).1 as real
  }

  predicate InRange(name: string, x: real, asap7: bool) {
    (name !in FRACTIONAL ==> Integral(x)) && Bounded(name, x, asap7)
  }

  /** A point of the published domain. */
  predicate Legal(c: Point, asap7: bool) {
    c.Keys == NAMES && forall name | name in NAMES :: InRange(name, c[name], asap7)
  }

  predicate Acceptable(c: map<string, Member>, asap7: bool) {
    && c.Keys == NAMES
    && forall name | name in NAMES :: c[name].Number? && InRange(name, c[name].value, asap7)
  }

  /** `x` is one of the integers from `lower` to `upper`. */
  predicate OneOf(x: real, lower: int, upper: int) {
    Integral(x) && lower <= x.Floor <= upper
  }

  /** The published domain, parameter by parameter: four real intervals, one of them by platform, and eight ranges of
      integers; no relation between the two paddings. */
  lemma TheDomain(c: Point, asap7: bool)
    ensures Legal(c, asap7) <==>
              && c.Keys == {"CLK", "UTIL", "TNS_End_Percent", "GP_PAD", "DP_PAD", "DPO", "PIN_ADJ", "UP_ADJ",
                            "LB_ADDON", "HIER_SYNTH", "CTS_CSIZE", "CTS_CDIA"}
              && (if asap7 then 100.0 <= c["CLK"] <= 10000.0 else 0.5 <= c["CLK"] <= 15.0)
              && 0.1 <= c["PIN_ADJ"] <= 0.7 && 0.1 <= c["UP_ADJ"] <= 0.7 && 0.0 <= c["LB_ADDON"] <= 0.99
              && OneOf(c["UTIL"], 20, 69) && OneOf(c["TNS_End_Percent"], 0, 100)
              && OneOf(c["GP_PAD"], 0, 3) && OneOf(c["DP_PAD"], 0, 3)
              && OneOf(c["DPO"], 0, 1) && OneOf(c["HIER_SYNTH"], 0, 1)
              && OneOf(c["CTS_CSIZE"], 10, 40) && OneOf(c["CTS_CDIA"], 80, 120)
  {
    hide InRange, OneOf;
    if c.Keys == NAMES {
      WholeRanges(c, asap7);
      RealRanges(c, asap7);
    }
  }

  lemma WholeRanges(c: Point, asap7: bool)
    requires c.Keys == NAMES
    ensures InRange("UTIL", c["UTIL"], asap7) <==> OneOf(c["UTIL"], 20, 69)
    ensures InRange("TNS_End_Percent", c["TNS_End_Percent"], asap7) <==> OneOf(c["TNS_End_Percent"], 0, 100)
    ensures InRange("GP_PAD", c["GP_PAD"], asap7) <==> OneOf(c["GP_PAD"], 0, 3)
    ensures InRange("DP_PAD", c["DP_PAD"], asap7) <==> OneOf(c["DP_PAD"], 0, 3)
    ensures InRange("DPO", c["DPO"], asap7) <==> OneOf(c["DPO"], 0, 1)
    ensures InRange("HIER_SYNTH", c["HIER_SYNTH"], asap7) <==> OneOf(c["HIER_SYNTH"], 0, 1)
    ensures InRange("CTS_CSIZE", c["CTS_CSIZE"], asap7) <==> OneOf(c["CTS_CSIZE"], 10, 40)
    ensures InRange("CTS_CDIA", c["CTS_CDIA"], asap7) <==> OneOf(c["CTS_CDIA"], 80, 120)
  {
    hide InRange, OneOf;
    WholeRange("UTIL", c["UTIL"], asap7, 20, 69);
    WholeRange("TNS_End_Percent", c["TNS_End_Percent"], asap7, 0, 100);
    WholeRange("GP_PAD", c["GP_PAD"], asap7, 0, 3);
    WholeRange("DP_PAD", c["DP_PAD"], asap7, 0, 3);
    WholeRange("DPO", c["DPO"], asap7, 0, 1);
    WholeRange("HIER_SYNTH", c["HIER_SYNTH"], asap7, 0, 1);
    WholeRange("CTS_CSIZE", c["CTS_CSIZE"], asap7, 10, 40);
    WholeRange("CTS_CDIA", c["CTS_CDIA"], asap7, 80, 120);
  }

  lemma WholeRange(name: string, x: real, asap7: bool, lower: int, upper: int)
    requires name !in FRACTIONAL && Bounds(name, asap7) == (1000 * lower, 1000 * upper)
    ensures InRange(name, x, asap7) <==> OneOf(x, lower, upper)
  {
    hide Bounds, FRACTIONAL;
    if Integral(x) {
      assert x == x.Floor as real;
      assert 1000.0 * x == (1000 * x.Floor) as real;
    }
  }

  lemma RealRanges(c: Point, asap7: bool)
    requires c.Keys == NAMES
    ensures InRange("CLK", c["CLK"], asap7)
      <==> if asap7 then 100.0 <= c["CLK"] <= 10000.0 else 0.5 <= c["CLK"] <= 15.0
    ensures InRange("PIN_ADJ", c["PIN_ADJ"], asap7) <==> 0.1 <= c["PIN_ADJ"] <= 0.7
    ensures InRange("UP_ADJ", c["UP_ADJ"], asap7) <==> 0.1 <= c["UP_ADJ"] <= 0.7
    ensures InRange("LB_ADDON", c["LB_ADDON"], asap7) <==> 0.0 <= c["LB_ADDON"] <= 0.99
  {
  }

  /** No legal candidate is refused: numbers are accepted exactly when they are a point of the domain. */
  lemma AcceptsTheDomain(c: map<string, Member>, p: Point, asap7: bool)
    requires c.Keys == p.Keys && forall name | name in p :: c[name] == Number(p[name])
    ensures Acceptable(c, asap7) <==> Legal(p, asap7)
  {
    hide InRange, NAMES;
  }

  /** Every listed member is a number, an integral one where integers are asked for. */
  predicate Numeric(c: map<string, Member>, names: seq<string>) {
    forall i | 0 <= i < |names| :: names[i] in c && c[names[i]].Number?
                                   && (names[i] !in FRACTIONAL ==> Integral(c[names[i]].value))
  }

  /** Reads the listed members as numbers. */
  method ReadNumbers(c: map<string, Member>, names: seq<string>) returns (r: Option<Point>)
    requires forall i | 0 <= i < |names| :: names[i] in c
    ensures r.Some? <==> Numeric(c, names)
    ensures r.Some? ==> r.value.Keys == (set i | 0 <= i < |names| :: names[i])
                        && forall name | name in r.value :: name in c && c[name] == Number(r.value[name])
  {
    hide Integral;
    var value: Point := map[];
    for n := 0 to |names|
      invariant value.Keys == set i | 0 <= i < n :: names[i]
      invariant forall name | name in value :: name in c && c[name] == Number(value[name])
      invariant Numeric(c, names[..n])
    {
      var name := names[n];
      if c[name].NotNumber? { return None; }
      if name !in FRACTIONAL && !Integral(c[name].value) { return None; }
      assert names[..n + 1] == names[..n] + [name];
      value := value[name := c[name].value];
    }
    assert names[..|names|] == names;
    r := Some(value);
  }

  /** Checks the listed values against their bounds. */
  method WithinBounds(value: Point, names: seq<string>, asap7: bool) returns (ok: bool)
    requires forall i | 0 <= i < |names| :: names[i] in value
    ensures ok <==> forall i | 0 <= i < |names| :: Bounded(names[i], value[names[i]], asap7)
  {
    hide Bounds;
    for n := 0 to |names|
      invariant forall i | 0 <= i < n :: Bounded(names[i], value[names[i]], asap7)
    {
      var (lower, upper) := Bounds(names[n], asap7);
      if !(lower as real <= 1000.0 * value[names[n]] <= upper as real) { return false; }
    }
    ok := true;
  }

  /** Accepts a candidate exactly when it is a point of the domain, and returns its values. */
  method ValidateCandidate(c: map<string, Member>, asap7: bool) returns (r: Option<Point>)
    ensures r.Some? <==> Acceptable(c, asap7)
    ensures r.Some? ==> Legal(r.value, asap7) && forall name | name in NAMES :: c[name] == Number(r.value[name])
  {
    if c.Keys != NAMES { return None; }
    var names := PARAMETERS;
    ParameterNames();
    AcceptableInParts(c, names, asap7);
    hide Acceptable, Numeric, Bounded, Integral;
    r := ReadNumbers(c, names);
    if r.None? { return; }
    var ok := WithinBounds(r.value, names, asap7);
    if !ok { r := None; } else { LegalReading(c, names, r.value, asap7); }
  }

  lemma ParameterNames()
    ensures NAMES == set i | 0 <= i < |PARAMETERS| :: PARAMETERS[i]
  {
    var ps := PARAMETERS;
    assert ps[0] == "CLK" && ps[1] == "UTIL" && ps[2] == "TNS_End_Percent" && ps[3] == "GP_PAD" && ps[4] == "DP_PAD"
        && ps[5] == "DPO" && ps[6] == "PIN_ADJ" && ps[7] == "UP_ADJ" && ps[8] == "LB_ADDON"
        && ps[9] == "HIER_SYNTH" && ps[10] == "CTS_CSIZE" && ps[11] == "CTS_CDIA";
  }

  lemma AcceptableInParts(c: map<string, Member>, names: seq<string>, asap7: bool)
    requires c.Keys == NAMES == set i | 0 <= i < |names| :: names[i]
    ensures Acceptable(c, asap7)
      <==> Numeric(c, names) && forall i | 0 <= i < |names| :: Bounded(names[i], c[names[i]].value, asap7)
  {
    hide Bounded, Integral;
    assert forall name | name in NAMES :: exists i :: 0 <= i < |names| && names[i] == name;
  }

  lemma LegalReading(c: map<string, Member>, names: seq<string>, value: Point, asap7: bool)
    requires c.Keys == NAMES == value.Keys && Acceptable(c, asap7)
    requires forall name | name in value :: c[name] == Number(value[name])
    ensures Legal(value, asap7)
  {
    hide InRange;
  }

  // ----- rounding to three decimals -----

  /** `round(x, 3)` in thousandths: the nearest one, ties to even. */
  function Milli(x: real): int {
    var f := (1000.0 * x).Floor;
    var d := 1000.0 * x - f as real;
    if d < 0.5 || (d == 0.5 && f % 2 == 0) then f else f + 1
  }

  function Rounded(x: real): real {
    Milli(x) as real / 1000.0
  }

  lemma RoundsToNearest(x: real)
    ensures -0.0005 <= Rounded(x) - x <= 0.0005
    ensures 1000.0 * Rounded(x) == Milli(x) as real
  {
  }

  lemma RoundsWithin(x: real, lower: int, upper: int)
    requires lower as real <= 1000.0 * x <= upper as real
    ensures lower <= Milli(x) <= upper
  {
  }

  /** Thousandths are not moved. */
  lemma RoundsThousandths(x: real)
    requires Integral(1000.0 * x)
    ensures Rounded(x) == x
  {
  }

  lemma IntegersAreIntegral(n: int)
    ensures Integral(n as real)
  {
  }

  lemma IntegralThousandths(x: real)
    requires Integral(x)
    ensures Integral(1000.0 * x)
  {
    var n := x.Floor;
    hide Integral;
    assert x == n as real by { IntegralIs(x); }
    ScaledInteger(n);
    IntegersAreIntegral(1000 * n);
  }

  lemma IntegralIs(x: real)
    requires Integral(x)
    ensures x == x.Floor as real
  {
  }

  lemma ScaledInteger(n: int)
    ensures 1000.0 * (n as real) == (1000 * n) as real
  {
  }

  const ROUNDED: set<string> := {"CLK", "UTIL", "LB_ADDON", "PIN_ADJ", "UP_ADJ"}
  const CAST: set<string> := {"TNS_End_Percent", "HIER_SYNTH", "GP_PAD", "DP_PAD", "DPO"}

  /** `int(x)`: truncation towards zero. */
  function Truncated(x: real): int {
    if x >= 0.0 then x.Floor else -((-x).Floor)
  }

  /** The values handed to execution: five of them rounded, five of the discrete ones cast to integers. */
  function Execution(c: Point): Point {
    map name | name in c :: Executed(name, c[name])
  }

  function Executed(name: string, x: real): real {
    if name in ROUNDED then Rounded(x) else if name in CAST then Truncated(x) as real else x
  }

  lemma FractionalIsRounded(name: string)
    ensures name in FRACTIONAL ==> name in ROUNDED
  {
  }

  lemma IntegersAreKept(name: string, x: real)
    requires Integral(x)
    ensures Executed(name, x) == x
  {
    hide Integral, ROUNDED, CAST;
    IntegralThousandths(x);
    RoundsThousandths(x);
    IntegralIs(x);
    assert Truncated(x) as real == x by { TruncatesIntegers(x); }
  }

  lemma TruncatesIntegers(x: real)
    requires Integral(x)
    ensures Truncated(x) as real == x
  {
    TruncatesInteger(x.Floor);
  }

  lemma TruncatesInteger(n: int)
    ensures Truncated(n as real) == n
  {
    assert -(n as real) == (-n) as real;
  }

  lemma RoundedStaysBounded(name: string, x: real, asap7: bool)
    requires Bounded(name, x, asap7)
    ensures Bounded(name, Rounded(x), asap7) && Integral(1000.0 * Rounded(x))
  {
    hide Bounds, Integral, Milli;
    var (lower, upper) := Bounds(name, asap7);
    RoundsToNearest(x);
    RoundsWithin(x, lower, upper);
    IntegersAreIntegral(Milli(x));
  }

  lemma RoundedInRange(name: string, x: real, asap7: bool)
    requires InRange(name, x, asap7)
    ensures InRange(name, Executed(name, x), asap7) && Integral(1000.0 * Executed(name, x))
    ensures -0.0005 <= Executed(name, x) - x <= 0.0005
    ensures name !in FRACTIONAL ==> Executed(name, x) == x
  {
    hide Bounded, Integral, Rounded, FRACTIONAL, ROUNDED, CAST;
    FractionalIsRounded(name);
    if name !in FRACTIONAL {
      IntegersAreKept(name, x);
      IntegralThousandths(x);
    } else {
      RoundedStaysBounded(name, x, asap7);
      RoundsToNearest(x);
    }
  }

  /** Main result: rounding maps every legal candidate to a legal one, does nothing the second time, and moves no value
      by more than half a thousandth. */
  lemma RoundingStaysLegal(c: Point, asap7: bool)
    requires Legal(c, asap7)
    ensures Legal(Execution(c), asap7)
    ensures Execution(Execution(c)) == Execution(c)
    ensures forall name | name in NAMES :: -0.0005 <= Execution(c)[name] - c[name] <= 0.0005
  {
    hide InRange, Rounded, Executed, Integral;
    var e := Execution(c);
    forall name | name in NAMES
      ensures InRange(name, e[name], asap7) && -0.0005 <= e[name] - c[name] <= 0.0005
      ensures Executed(name, e[name]) == e[name]
    {
      RoundedInRange(name, c[name], asap7);
      ThousandthsAreKept(name, e[name], asap7);
    }
  }

  /** `k` thousandths are nearest to `x`; of two that are equally near, the even one. */
  predicate Nearest(k: int, x: real) {
    -0.5 <= 1000.0 * x - k as real <= 0.5
    && (1000.0 * x - k as real == 0.5 || 1000.0 * x - k as real == -0.5 ==> k % 2 == 0)
  }

  /** Main result: every value handed to execution is the nearest whole number of thousandths, ties to the even one; the
      integer parameters are handed over as they are. */
  lemma ExecutesTheNearest(c: Point, asap7: bool, name: string)
    requires Legal(c, asap7) && name in NAMES
    ensures exists k: int :: 1000.0 * Execution(c)[name] == k as real && Nearest(k, c[name])
    ensures name !in FRACTIONAL ==> Execution(c)[name] == c[name]
  {
    hide Bounded, Integral, Bounds;
    var x := c[name];
    assert InRange(name, x, asap7);
    RoundedInRange(name, x, asap7);
    if name in FRACTIONAL {
      MilliIsNearest(x);
      RoundsToNearest(x);
      assert 1000.0 * Execution(c)[name] == Milli(x) as real;
    } else {
      assert Integral(1000.0 * x);
      var k := (1000.0 * x).Floor;
      IntegralIs(1000.0 * x);
      assert Nearest(k, x);
    }
  }

  lemma MilliIsNearest(x: real)
    ensures Nearest(Milli(x), x)
  {
  }

  lemma ThousandthsAreKept(name: string, x: real, asap7: bool)
    requires InRange(name, x, asap7) && Integral(1000.0 * x)
    ensures Executed(name, x) == x
  {
    hide Bounded, Integral, Rounded, FRACTIONAL, ROUNDED, CAST;
    FractionalIsRounded(name);
    RoundsThousandths(x);
    if name !in FRACTIONAL { IntegersAreKept(name, x); }
  }

  // ----- the recorded objective -----

  /** The effective clock period recorded for a candidate. */
  function EcpFinal(c: Point, slack: real): real
    requires "CLK" in c
  {
    c["CLK"] - slack
  }

  function FractionalLoss(wirelength: real, baseWirelength: real, ecp: real, baseEcp: real): real
    requires baseWirelength > 0.0 && baseEcp > 0.0
  {
    wirelength / baseWirelength + ecp / baseEcp
  }

  /** What the recorded figures mean: the recorded period is the one at which the reported slack is used up, and the
      loss weighs wire length and period by what the baseline has of each: the baseline itself loses 2. */
  lemma RecordedFigures(c: Point, slack: real, period: real, wirelength: real, baseWirelength: real, baseEcp: real)
    requires "CLK" in c && baseWirelength > 0.0 && baseEcp > 0.0
    ensures slack - (c["CLK"] - period) == 0.0 <==> period == EcpFinal(c, slack)
    ensures FractionalLoss(wirelength, baseWirelength, period, baseEcp) * (baseWirelength * baseEcp)
         == wirelength * baseEcp + period * baseWirelength
    ensures FractionalLoss(baseWirelength, baseWirelength, baseEcp, baseEcp) == 2.0
  {
    var a, b := wirelength / baseWirelength, period / baseEcp;
    assert a * baseWirelength == wirelength && b * baseEcp == period;
    Weighed(a, b, baseWirelength, baseEcp);
    WholeOf(baseWirelength);
    WholeOf(baseEcp);
  }

  lemma WholeOf(x: real)
    requires x > 0.0
    ensures x / x == 1.0
  {
  }

  lemma Weighed(a: real, b: real, w: real, e: real)
    ensures (a + b) * (w * e) == a * w * e + b * e * w
  {
  }

  /** Main result: the objective is recorded from the unrounded clock; it is within half a thousandth, and the loss
      within that over the baseline, of the value for the clock that was executed. */
  lemma RecordedObjectiveIsClose(c: Point, asap7: bool, slack: real, wirelength: real, baseWirelength: real,
                                 baseEcp: real)
    requires Legal(c, asap7) && baseWirelength > 0.0 && baseEcp > 0.0
    ensures var recorded, executed := EcpFinal(c, slack), EcpFinal(Execution(c), slack);
            var gap := FractionalLoss(wirelength, baseWirelength, recorded, baseEcp)
                       - FractionalLoss(wirelength, baseWirelength, executed, baseEcp);
            && -0.0005 <= recorded - executed <= 0.0005
            && -0.0005 / baseEcp <= gap <= 0.0005 / baseEcp
  {
    hide FractionalLoss, Execution, Legal;
    RoundingStaysLegal(c, asap7);
    assert Execution(c).Keys == c.Keys == NAMES by { LegalNames(c, asap7); }
    var recorded, executed := EcpFinal(c, slack), EcpFinal(Execution(c), slack);
    var d := recorded - executed;
    LossIs(wirelength, baseWirelength, recorded, baseEcp);
    LossIs(wirelength, baseWirelength, executed, baseEcp);
    LossGap(wirelength / baseWirelength, recorded, executed, baseEcp);
    DivideBounds(d, baseEcp);
  }

  lemma LegalNames(c: Point, asap7: bool)
    requires Legal(c, asap7)
    ensures c.Keys == Execution(c).Keys == NAMES
  {
  }

  lemma LossIs(wirelength: real, baseWirelength: real, ecp: real, baseEcp: real)
    requires baseWirelength > 0.0 && baseEcp > 0.0
    ensures FractionalLoss(wirelength, baseWirelength, ecp, baseEcp) == wirelength / baseWirelength + ecp / baseEcp
  {
  }

  lemma LossGap(w: real, a: real, b: real, base: real)
    requires base > 0.0
    ensures (w + a / base) - (w + b / base) == (a - b) / base
  {
  }

  lemma DivideBounds(d: real, b: real)
    requires b > 0.0 && -0.0005 <= d <= 0.0005
    ensures -0.0005 / b <= d / b <= 0.0005 / b
  {
    assert (0.0005 - d) / b >= 0.0 && (d + 0.0005) / b >= 0.0;
  }
}
