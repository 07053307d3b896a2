/** The validator of a frozen search domain looks at each parameter on its own, yet speaks for the whole Cartesian
    product: what it accepts, and what the proposers emit over it, is legal point by point. */
module SearchDomain {
  import opened Wrappers
  import Candidate
  import SeededProposal

  type Member = Candidate.Member
  type Point = map<string, real>

  const NAMES: set<string> := {"core_utilization_pct", "tns_end_percent", "global_placement_padding",
                               "detail_placement_padding", "enable_dpo", "place_density_lb_addon",
                               "cts_cluster_size", "cts_cluster_diameter"}
  const GP := "global_placement_padding"
  const DP := "detail_placement_padding"
  const CLOCK := "clock_period_ns"
  const FRACTIONAL := "place_density_lb_addon"

  /** A domain document whose field set, hashes, protocol receipt and timing have been checked. */
  datatype Domain = Domain(platform: string, search: seq<string>, fixed: map<string, Member>,
                           admissible: map<string, seq<Member>>, protocolSha: string, clock: real)

  datatype Observation = Observation(parameters: map<string, Member>, protocolSha: string)

  // ----- admitted values -----

  /** Bounds in hundredths. */
  function Bounds(name: string, platform: string): (int, int) {
    if name == "core_utilization_pct" then
      (if platform == "asap7" then (3000, 7500) else if platform == "sky130hd" then (2000, 7000) else (2000, 8000))
    else if name == "tns_end_percent" then (0, 10000)
    else if name == GP || name == DP then (0, 300)
    else if name == "enable_dpo" then (0, 100)
    else if name == FRACTIONAL then (0, 50)
    else if name == "cts_cluster_size" then (1000, 4000)
    else (4000, 12000)
  }

  predicate InRange(name: string, x: real, platform: string) {
    && (name != FRACTIONAL ==> Candidate.Integral(x))
    && Bounds(name, platform).0 as real <= 100.0 * x <= Bounds(name, platform).1 as real
  }

  /** `canonical(name, value)`: the value when it is an admitted number. */
  function Canonical(name: string, v: Member, platform: string): Option<real> {
    if v.Number? && InRange(name, v.value, platform) then Some(v.value) else None
  }

  // ----- the product and its legal points -----

  function SearchSet(d: Domain): set<string> {
    set i | 0 <= i < |d.search| :: d.search[i]
  }

  /** Searched and fixed names partition the eight parameters. */
  predicate Partition(d: Domain) {
    && SearchSet(d) + d.fixed.Keys == NAMES && SearchSet(d) !! d.fixed.Keys && d.admissible.Keys == SearchSet(d)
  }

  predicate HasChoice(values: seq<Member>, x: real) {
    exists i | 0 <= i < |values| :: values[i] == Candidate.Number(x)
  }

  /** A point of the full product: one admissible value per searched name, the fixed value elsewhere. */
  predicate InProduct(d: Domain, p: Point)
    requires Partition(d)
  {
    && p.Keys == NAMES
    && (forall n | n in d.admissible :: HasChoice(d.admissible[n], p[n]))
    && (forall n | n in d.fixed :: d.fixed[n] == Candidate.Number(p[n]))
  }

  /** Every value in range and the detail padding at most the global padding. */
  predicate LegalPoint(p: Point, platform: string) {
    && p.Keys == NAMES && GP in p && DP in p
    && (forall n | n in NAMES :: InRange(n, p[n], platform))
    && p[DP] <= p[GP]
  }

  /** The legal points, parameter by parameter. */
  lemma LegalPointsAre(p: Point, platform: string)
    ensures LegalPoint(p, platform) <==>
              && p.Keys == {"core_utilization_pct", "tns_end_percent", "global_placement_padding",
                            "detail_placement_padding", "enable_dpo", "place_density_lb_addon", "cts_cluster_size",
                            "cts_cluster_diameter"}
              && (match platform
                  case "asap7" => Candidate.OneOf(p["core_utilization_pct"], 30, 75)
                  case "sky130hd" => Candidate.OneOf(p["core_utilization_pct"], 20, 70)
                  case _ => Candidate.OneOf(p["core_utilization_pct"], 20, 80))
              && Candidate.OneOf(p["tns_end_percent"], 0, 100) && Candidate.OneOf(p["enable_dpo"], 0, 1)
              && Candidate.OneOf(p["global_placement_padding"], 0, 3)
              && Candidate.OneOf(p["detail_placement_padding"], 0, 3)
              && p["detail_placement_padding"] <= p["global_placement_padding"]
              && 0.0 <= p["place_density_lb_addon"] <= 0.5
              && Candidate.OneOf(p["cts_cluster_size"], 10, 40) && Candidate.OneOf(p["cts_cluster_diameter"], 40, 120)
  {
    hide InRange;
    if p.Keys == NAMES {
      forall name | name in NAMES && name != FRACTIONAL
        ensures InRange(name, p[name], platform)
          <==> Candidate.OneOf(p[name], Bounds(name, platform).0 / 100, Bounds(name, platform).1 / 100)
      {
        WholeRange(name, p[name], platform);
      }
      RealRange(p[FRACTIONAL], platform);
    }
  }

  lemma RealRange(x: real, platform: string)
    ensures InRange(FRACTIONAL, x, platform) <==> 0.0 <= x <= 0.5
  {
  }

  lemma WholeRange(name: string, x: real, platform: string)
    requires name in NAMES && name != FRACTIONAL
    ensures InRange(name, x, platform)
      <==> Candidate.OneOf(x, Bounds(name, platform).0 / 100, Bounds(name, platform).1 / 100)
  {
    hide NAMES;
    var (lower, upper) := Bounds(name, platform);
    assert lower % 100 == 0 && upper % 100 == 0;
    if Candidate.Integral(x) {
      assert x == x.Floor as real;
      assert 100.0 * x == (100 * x.Floor) as real;
    }
  }

  // ----- the validator -----

  predicate FixedAdmitted(d: Domain) {
    forall n | n in d.fixed :: Canonical(n, d.fixed[n], d.platform).Some?
  }

  predicate ValuesAdmitted(d: Domain) {
    forall n | n in d.admissible :: forall i | 0 <= i < |d.admissible[n]| ::
      Canonical(n, d.admissible[n][i], d.platform).Some?
  }

  /** Two different admissible values. */
  predicate TwoChoices(values: seq<Member>) {
    exists i, j | 0 <= i < j < |values| :: values[i] != values[j]
  }

  predicate EnoughChoices(d: Domain) {
    forall n | n in d.admissible :: TwoChoices(d.admissible[n])
  }

  predicate OnePaddingFixed(d: Domain) {
    !(GP in SearchSet(d) && DP in SearchSet(d))
  }

  /** The three padding comparisons, each made when the values it needs are there. */
  predicate PaddingRelated(d: Domain) {
    && (GP in d.fixed && DP in d.fixed && d.fixed[GP].Number? && d.fixed[DP].Number? ==>
          d.fixed[DP].value <= d.fixed[GP].value)
    && (GP in d.fixed && d.fixed[GP].Number? && DP in d.admissible ==>
          forall i | 0 <= i < |d.admissible[DP]| && d.admissible[DP][i].Number? ::
            d.admissible[DP][i].value <= d.fixed[GP].value)
    && (DP in d.fixed && d.fixed[DP].Number? && GP in d.admissible ==>
          forall i | 0 <= i < |d.admissible[GP]| && d.admissible[GP][i].Number? ::
            d.fixed[DP].value <= d.admissible[GP][i].value)
  }

  predicate PlatformListed(d: Domain) {
    d.platform in {"asap7", "sky130hd", "nangate45"}
  }

  predicate DomainAccepted(d: Domain) {
    && Partition(d) && PlatformListed(d) && FixedAdmitted(d) && ValuesAdmitted(d) && EnoughChoices(d)
    && OnePaddingFixed(d) && PaddingRelated(d)
  }

  predicate ObservationAccepted(d: Domain, o: Observation) {
    && o.parameters.Keys == NAMES + {CLOCK}
    && o.protocolSha == d.protocolSha && o.parameters[CLOCK] == Candidate.Number(d.clock)
    && forall n | n in NAMES ::
         && Canonical(n, o.parameters[n], d.platform).Some?
         && (n in d.fixed ==> o.parameters[n] == d.fixed[n])
         && (n in d.admissible ==> o.parameters[n] in d.admissible[n])
  }

  lemma DifferentMembersDifferentValues(raw: seq<Member>, seen: seq<real>)
    requires forall i | 0 <= i < |raw| :: raw[i].Number? && raw[i].value in seen
    ensures TwoChoices(raw) ==> |seen| >= 2
  {
    if TwoChoices(raw) {
      var i, j :| 0 <= i < j < |raw| && raw[i] != raw[j];
      var k :| 0 <= k < |seen| && seen[k] == raw[i].value;
      var l :| 0 <= l < |seen| && seen[l] == raw[j].value;
      assert k != l;
    }
  }

  /** The admitted values of one name without repetitions, or nothing when one of them is not admitted. */
  method NormalizeValues(name: string, raw: seq<Member>, platform: string) returns (choices: Option<seq<real>>)
    ensures choices.Some? <==> forall i | 0 <= i < |raw| :: Canonical(name, raw[i], platform).Some?
    ensures choices.Some? ==> (forall x :: x in choices.value <==> HasChoice(raw, x))
                              && (|choices.value| >= 2 <==> TwoChoices(raw))
  {
    hide InRange;
    var seen: seq<real> := [];
    for n := 0 to |raw|
      invariant forall i | 0 <= i < n :: Canonical(name, raw[i], platform).Some? && raw[i].value in seen
      invariant forall x | x in seen :: exists i :: 0 <= i < n && raw[i] == Candidate.Number(x)
      invariant forall i, j | 0 <= i < j < |seen| :: seen[i] != seen[j]
    {
      var value := Canonical(name, raw[n], platform);
      if value.None? { return None; }
      if value.value !in seen { seen := seen + [value.value]; }
    }
    if |seen| >= 2 {
      assert seen[0] in seen && seen[1] in seen;
      var i :| 0 <= i < |raw| && raw[i] == Candidate.Number(seen[0]);
      var j :| 0 <= j < |raw| && raw[j] == Candidate.Number(seen[1]);
      assert raw[if i < j then i else j] != raw[if i < j then j else i];
    }
    DifferentMembersDifferentValues(raw, seen);
    choices := Some(seen);
  }

  /** The comparisons of the two padding parameters. */
  method CheckPadding(d: Domain) returns (ok: bool)
    ensures ok <==> PaddingRelated(d)
  {
    if GP in d.fixed && DP in d.fixed && d.fixed[GP].Number? && d.fixed[DP].Number? {
      if d.fixed[DP].value > d.fixed[GP].value { return false; }
    }
    if GP in d.fixed && d.fixed[GP].Number? && DP in d.admissible {
      var values := d.admissible[DP];
      for n := 0 to |values|
        invariant forall i | 0 <= i < n && values[i].Number? :: values[i].value <= d.fixed[GP].value
      {
        if values[n].Number? && values[n].value > d.fixed[GP].value { return false; }
      }
    }
    if DP in d.fixed && d.fixed[DP].Number? && GP in d.admissible {
      var values := d.admissible[GP];
      for n := 0 to |values|
        invariant forall i | 0 <= i < n && values[i].Number? :: d.fixed[DP].value <= values[i].value
      {
        if values[n].Number? && values[n].value < d.fixed[DP].value { return false; }
      }
    }
    ok := true;
  }

  /** One observation against the frozen domain, parameter by parameter. */
  method CheckObservation(d: Domain, o: Observation) returns (ok: bool)
    ensures ok <==> ObservationAccepted(d, o)
  {
    hide InRange, NAMES;
    if o.parameters.Keys != NAMES + {CLOCK} { return false; }
    if o.protocolSha != d.protocolSha || o.parameters[CLOCK] != Candidate.Number(d.clock) { return false; }
    var todo := NAMES;
    while todo != {}
      invariant todo <= NAMES
      invariant forall n | n in NAMES && n !in todo ::
                  && Canonical(n, o.parameters[n], d.platform).Some?
                  && (n in d.fixed ==> o.parameters[n] == d.fixed[n])
                  && (n in d.admissible ==> o.parameters[n] in d.admissible[n])
      decreases |todo|
    {
      var n :| n in todo;
      if Canonical(n, o.parameters[n], d.platform).None? { return false; }
      if n in d.fixed && o.parameters[n] != d.fixed[n] { return false; }
      if n in d.admissible && o.parameters[n] !in d.admissible[n] { return false; }
      todo := todo - {n};
    }
    ok := true;
  }

  method CheckFixed(d: Domain) returns (ok: bool)
    ensures ok <==> FixedAdmitted(d)
  {
    hide InRange;
    var todo := d.fixed.Keys;
    while todo != {}
      invariant todo <= d.fixed.Keys
      invariant forall n | n in d.fixed && n !in todo :: Canonical(n, d.fixed[n], d.platform).Some?
      decreases |todo|
    {
      var n :| n in todo;
      if Canonical(n, d.fixed[n], d.platform).None? { return false; }
      todo := todo - {n};
    }
    ok := true;
  }

  method CheckValues(d: Domain) returns (ok: bool)
    ensures ok <==> ValuesAdmitted(d) && EnoughChoices(d)
  {
    hide Canonical, TwoChoices;
    var todo := d.admissible.Keys;
    while todo != {}
      invariant todo <= d.admissible.Keys
      invariant forall n | n in d.admissible && n !in todo ::
                  && TwoChoices(d.admissible[n])
                  && forall i | 0 <= i < |d.admissible[n]| :: Canonical(n, d.admissible[n][i], d.platform).Some?
      decreases |todo|
    {
      var n :| n in todo;
      var choices := NormalizeValues(n, d.admissible[n], d.platform);
      if choices.None? || |choices.value| < 2 { return false; }
      todo := todo - {n};
    }
    ok := true;
  }

  /** The whole validation; it accepts exactly the accepted domains with accepted observations. */
  method Validate(d: Domain, observations: seq<Observation>) returns (ok: bool)
    ensures ok <==> DomainAccepted(d) && forall i | 0 <= i < |observations| :: ObservationAccepted(d, observations[i])
  {
    hide NAMES, ObservationAccepted, PaddingRelated, FixedAdmitted, ValuesAdmitted, EnoughChoices;
    if !(SearchSet(d) + d.fixed.Keys == NAMES && SearchSet(d) !! d.fixed.Keys && d.admissible.Keys == SearchSet(d)) {
      return false;
    }
    if !PlatformListed(d) { return false; }
    var fixedAdmitted := CheckFixed(d);
    if !fixedAdmitted { return false; }
    var valuesAdmitted := CheckValues(d);
    if !valuesAdmitted { return false; }
    if GP in SearchSet(d) && DP in SearchSet(d) { return false; }
    var related := CheckPadding(d);
    if !related { return false; }
    for n := 0 to |observations|
      invariant forall i | 0 <= i < n :: ObservationAccepted(d, observations[i])
    {
      var accepted := CheckObservation(d, observations[n]);
      if !accepted { return false; }
    }
    ok := true;
  }

  // ----- what acceptance means for the product -----

  lemma ProductPointsInRange(d: Domain, p: Point, n: string)
    requires Partition(d) && FixedAdmitted(d) && ValuesAdmitted(d) && InProduct(d, p) && n in NAMES
    ensures InRange(n, p[n], d.platform)
  {
    hide InRange, NAMES;
    if n in d.fixed {
      assert Canonical(n, d.fixed[n], d.platform).Some?;
    } else {
      assert HasChoice(d.admissible[n], p[n]);
      var i :| 0 <= i < |d.admissible[n]| && d.admissible[n][i] == Candidate.Number(p[n]);
      assert Canonical(n, d.admissible[n][i], d.platform).Some?;
    }
  }

  lemma PaddingNames()
    ensures GP in NAMES && DP in NAMES && GP != DP
  {
  }

  lemma ProductPointsPadded(d: Domain, p: Point)
    requires Partition(d) && OnePaddingFixed(d) && PaddingRelated(d) && InProduct(d, p) && GP in p && DP in p
    ensures p[DP] <= p[GP]
  {
    hide NAMES;
    PaddingNames();
    if GP in d.admissible {
      var i :| 0 <= i < |d.admissible[GP]| && d.admissible[GP][i] == Candidate.Number(p[GP]);
    }
    if DP in d.admissible {
      var i :| 0 <= i < |d.admissible[DP]| && d.admissible[DP][i] == Candidate.Number(p[DP]);
    }
  }

  /** Main result: every point of the product of an accepted domain is legal, though no point was looked at. */
  lemma AcceptedDomainsAreLegal(d: Domain, p: Point)
    requires DomainAccepted(d) && InProduct(d, p)
    ensures LegalPoint(p, d.platform)
  {
    hide NAMES, InRange, PaddingRelated;
    PaddingNames();
    forall n | n in NAMES ensures InRange(n, p[n], d.platform) { ProductPointsInRange(d, p, n); }
    ProductPointsPadded(d, p);
  }

  /** Only numbers are listed. */
  predicate OnlyNumbers(d: Domain) {
    && (forall n | n in d.fixed :: d.fixed[n].Number?)
    && (forall n | n in d.admissible :: forall i | 0 <= i < |d.admissible[n]| :: d.admissible[n][i].Number?)
  }

  /** The point of the product that takes the value at `i` for `name`, and the first listed value elsewhere. */
  function Probe(d: Domain, name: string, i: nat): Point
    requires Partition(d) && OnlyNumbers(d) && EnoughChoices(d)
    requires name in d.admissible ==> i < |d.admissible[name]|
  {
    map n | n in NAMES ::
      if n in d.fixed then d.fixed[n].value
      else d.admissible[n][if n == name then i else 0].value
  }

  lemma ProbeIsInProduct(d: Domain, name: string, i: nat)
    requires Partition(d) && OnlyNumbers(d) && EnoughChoices(d)
    requires name in d.admissible ==> i < |d.admissible[name]|
    ensures InProduct(d, Probe(d, name, i))
  {
    hide NAMES;
    var p := Probe(d, name, i);
    forall n | n in d.admissible ensures HasChoice(d.admissible[n], p[n]) {
      assert TwoChoices(d.admissible[n]);
      assert d.admissible[n][if n == name then i else 0] == Candidate.Number(p[n]);
    }
  }

  /** Every point of the product is legal. */
  ghost predicate ProductLegal(d: Domain)
    requires Partition(d)
  {
    forall p :: InProduct(d, p) ==> LegalPoint(p, d.platform)
  }

  /** Main result: beyond the shape checks, the validator refuses exactly the domains with an illegal product
      point. */
  lemma AcceptsExactlyLegalProducts(d: Domain)
    ensures DomainAccepted(d) <==>
              && Partition(d) && PlatformListed(d) && OnlyNumbers(d) && EnoughChoices(d) && OnePaddingFixed(d)
              && ProductLegal(d)
  {
    hide InProduct, LegalPoint, InRange, NAMES, PlatformListed;
    if DomainAccepted(d) {
      forall p | InProduct(d, p) ensures LegalPoint(p, d.platform) { AcceptedDomainsAreLegal(d, p); }
      AdmittedAreNumbers(d);
    }
    if Partition(d) && OnlyNumbers(d) && EnoughChoices(d) && ProductLegal(d) {
      LegalProductIsAdmitted(d);
      LegalProductIsPadded(d);
    }
  }

  lemma AdmittedAreNumbers(d: Domain)
    requires FixedAdmitted(d) && ValuesAdmitted(d)
    ensures OnlyNumbers(d)
  {
    hide InRange;
    forall n | n in d.fixed ensures d.fixed[n].Number? {
      assert Canonical(n, d.fixed[n], d.platform).Some?;
    }
    forall n, i | n in d.admissible && 0 <= i < |d.admissible[n]| ensures d.admissible[n][i].Number? {
      assert Canonical(n, d.admissible[n][i], d.platform).Some?;
    }
  }

  lemma LegalAt(p: Point, platform: string, n: string)
    requires LegalPoint(p, platform) && n in NAMES
    ensures n in p && InRange(n, p[n], platform) && GP in p && DP in p && p[DP] <= p[GP]
  {
  }

  lemma LegalProductIsAdmitted(d: Domain)
    requires Partition(d) && OnlyNumbers(d) && EnoughChoices(d) && ProductLegal(d)
    ensures FixedAdmitted(d) && ValuesAdmitted(d)
  {
    hide InProduct, LegalPoint, InRange, EnoughChoices, NAMES;
    forall n | n in d.fixed ensures Canonical(n, d.fixed[n], d.platform).Some? {
      ProbeIsInProduct(d, n, 0);
      LegalAt(Probe(d, n, 0), d.platform, n);
    }
    forall n, i | n in d.admissible && 0 <= i < |d.admissible[n]|
      ensures Canonical(n, d.admissible[n][i], d.platform).Some?
    {
      ProbeIsInProduct(d, n, i);
      LegalAt(Probe(d, n, i), d.platform, n);
    }
  }

  lemma LegalProductIsPadded(d: Domain)
    requires Partition(d) && OnlyNumbers(d) && EnoughChoices(d) && ProductLegal(d)
    ensures PaddingRelated(d)
  {
    hide InProduct, LegalPoint, EnoughChoices, NAMES;
    PaddingNames();
    if GP in d.fixed && DP in d.fixed {
      ProbeIsInProduct(d, GP, 0);
      LegalAt(Probe(d, GP, 0), d.platform, GP);
    }
    if GP in d.fixed && DP in d.admissible {
      forall i | 0 <= i < |d.admissible[DP]| ensures d.admissible[DP][i].value <= d.fixed[GP].value {
        ProbeIsInProduct(d, DP, i);
        LegalAt(Probe(d, DP, i), d.platform, GP);
      }
    }
    if DP in d.fixed && GP in d.admissible {
      forall i | 0 <= i < |d.admissible[GP]| ensures d.fixed[DP].value <= d.admissible[GP][i].value {
        ProbeIsInProduct(d, GP, i);
        LegalAt(Probe(d, GP, i), d.platform, GP);
      }
    }
  }

  /** A domain that searches both paddings over values that never conflict. */
  const BOTH_SEARCHED := Domain(
    "nangate45", [GP, DP],
    map["core_utilization_pct" := Candidate.Number(50.0), "tns_end_percent" := Candidate.Number(0.0),
        "enable_dpo" := Candidate.Number(0.0), FRACTIONAL := Candidate.Number(0.0),
        "cts_cluster_size" := Candidate.Number(20.0), "cts_cluster_diameter" := Candidate.Number(50.0)],
    map[GP := [Candidate.Number(2.0), Candidate.Number(3.0)], DP := [Candidate.Number(0.0), Candidate.Number(1.0)]],
    "", 1.0)

  lemma BothSearchedShape()
    ensures Partition(BOTH_SEARCHED)
  {
    var d := BOTH_SEARCHED;
    assert SearchSet(d) == {GP, DP} by {
      assert d.search[0] == GP && d.search[1] == DP;
    }
  }

  lemma BothSearchedAdmitted()
    ensures FixedAdmitted(BOTH_SEARCHED) && ValuesAdmitted(BOTH_SEARCHED) && EnoughChoices(BOTH_SEARCHED)
  {
    var d := BOTH_SEARCHED;
    forall n | n in d.admissible ensures TwoChoices(d.admissible[n]) {
      assert d.admissible[n][0] != d.admissible[n][1];
    }
  }

  /** Such a domain is refused although every point of its product is legal. */
  lemma LegalProductRefused()
    ensures var d := BOTH_SEARCHED;
            && Partition(d) && PlatformListed(d) && OnlyNumbers(d) && EnoughChoices(d) && ProductLegal(d)
            && !DomainAccepted(d)
  {
    hide NAMES, InRange, FixedAdmitted, ValuesAdmitted, EnoughChoices, OnlyNumbers;
    var d := BOTH_SEARCHED;
    BothSearchedShape();
    BothSearchedAdmitted();
    AdmittedAreNumbers(d);
    PaddingNames();
    assert d.search[0] == GP && d.search[1] == DP;
    forall p | InProduct(d, p) ensures LegalPoint(p, d.platform) {
      forall n | n in NAMES ensures InRange(n, p[n], d.platform) { ProductPointsInRange(d, p, n); }
      assert HasChoice(d.admissible[GP], p[GP]) && HasChoice(d.admissible[DP], p[DP]);
    }
  }

  // ----- points that come from elsewhere -----

  /** The values of a record of numbers. */
  function PointOf(c: map<string, Member>): Point
    requires forall n | n in NAMES :: n in c && c[n].Number?
  {
    map n | n in NAMES :: c[n].value
  }

  lemma ChosenMember(values: seq<Member>, v: Member)
    requires v in values && v.Number?
    ensures HasChoice(values, v.value)
  {
    var i :| 0 <= i < |values| && values[i] == v;
    assert values[i] == Candidate.Number(v.value);
  }

  /** Main result: an accepted observation is a point of the product, hence legal. */
  lemma AcceptedObservationsAreLegal(d: Domain, o: Observation)
    requires DomainAccepted(d) && ObservationAccepted(d, o)
    ensures forall n | n in NAMES :: n in o.parameters && o.parameters[n].Number?
    ensures InProduct(d, PointOf(o.parameters)) && LegalPoint(PointOf(o.parameters), d.platform)
  {
    hide NAMES, InRange, PaddingRelated;
    forall n | n in NAMES ensures n in o.parameters && o.parameters[n].Number? {
      assert Canonical(n, o.parameters[n], d.platform).Some?;
    }
    var p := PointOf(o.parameters);
    forall n | n in d.admissible ensures HasChoice(d.admissible[n], p[n]) {
      ChosenMember(d.admissible[n], o.parameters[n]);
    }
    AcceptedDomainsAreLegal(d, p);
  }

  /** The upstream column of each platform parameter. */
  function Upstream(name: string): string {
    if name == "core_utilization_pct" then "UTIL"
    else if name == "tns_end_percent" then "TNS_End_Percent"
    else if name == GP then "GP_PAD"
    else if name == DP then "DP_PAD"
    else if name == "enable_dpo" then "DPO"
    else if name == FRACTIONAL then "LB_ADDON"
    else if name == "cts_cluster_size" then "CTS_CSIZE"
    else "CTS_CDIA"
  }

  /** What the filter demands of an upstream suggestion. */
  predicate Admitted(d: Domain, raw: map<string, Member>)
    requires Partition(d)
  {
    && (forall n | n in NAMES :: Upstream(n) in raw)
    && (forall n | n in d.admissible :: raw[Upstream(n)] in d.admissible[n])
    && (forall n | n in d.fixed :: raw[Upstream(n)] == d.fixed[n])
  }

  function Project(raw: map<string, Member>): map<string, Member>
    requires forall n | n in NAMES :: Upstream(n) in raw
  {
    map n | n in NAMES :: raw[Upstream(n)]
  }

  /** What is let through, member by member: each platform parameter takes the value of its upstream column. */
  lemma ProjectionIs(d: Domain, raw: map<string, Member>)
    requires Partition(d) && Admitted(d, raw)
    ensures {"UTIL", "TNS_End_Percent", "GP_PAD", "DP_PAD", "DPO", "LB_ADDON", "CTS_CSIZE", "CTS_CDIA"} <= raw.Keys
    ensures Project(raw) ==
            map["core_utilization_pct" := raw["UTIL"], "tns_end_percent" := raw["TNS_End_Percent"],
                "global_placement_padding" := raw["GP_PAD"], "detail_placement_padding" := raw["DP_PAD"],
                "enable_dpo" := raw["DPO"], "place_density_lb_addon" := raw["LB_ADDON"],
                "cts_cluster_size" := raw["CTS_CSIZE"], "cts_cluster_diameter" := raw["CTS_CDIA"]]
  {
    Columns();
    hide Partition, Upstream, NAMES;
    assert forall n | n in NAMES :: Upstream(n) in raw;
    assert Project(raw).Keys == NAMES;
  }

  lemma Columns()
    ensures NAMES == {"core_utilization_pct", "tns_end_percent", "global_placement_padding",
                      "detail_placement_padding", "enable_dpo", "place_density_lb_addon", "cts_cluster_size",
                      "cts_cluster_diameter"}
    ensures Upstream("core_utilization_pct") == "UTIL" && Upstream("tns_end_percent") == "TNS_End_Percent"
    ensures Upstream("global_placement_padding") == "GP_PAD" && Upstream("detail_placement_padding") == "DP_PAD"
    ensures Upstream("enable_dpo") == "DPO" && Upstream("place_density_lb_addon") == "LB_ADDON"
    ensures Upstream("cts_cluster_size") == "CTS_CSIZE" && Upstream("cts_cluster_diameter") == "CTS_CDIA"
  {
  }

  /** The native adapter: projects every suggestion and refuses the whole answer when one is outside the domain. */
  method FilterSuggestions(d: Domain, raws: seq<map<string, Member>>)
    returns (candidates: Option<seq<map<string, Member>>>)
    requires Partition(d)
    ensures candidates.Some? <==> forall i | 0 <= i < |raws| :: Admitted(d, raws[i])
    ensures candidates.Some? ==>
              && |candidates.value| == |raws|
              && forall i | 0 <= i < |raws| :: candidates.value[i] == Project(raws[i])
  {
    hide NAMES, Upstream;
    var kept: seq<map<string, Member>> := [];
    for i := 0 to |raws|
      invariant |kept| == i && forall j | 0 <= j < i :: Admitted(d, raws[j]) && kept[j] == Project(raws[j])
    {
      var raw := raws[i];
      if exists n | n in NAMES :: Upstream(n) !in raw { return None; }
      var candidate := Project(raw);
      if exists n | n in d.admissible :: candidate[n] !in d.admissible[n] { return None; }
      if exists n | n in d.fixed :: candidate[n] != d.fixed[n] { return None; }
      kept := kept + [candidate];
    }
    candidates := Some(kept);
  }

  /** Main result: a suggestion let through over an accepted domain is a legal point of its product. */
  lemma FilteredSuggestionsAreLegal(d: Domain, raw: map<string, Member>)
    requires DomainAccepted(d) && Admitted(d, raw)
    ensures forall n | n in NAMES :: Project(raw)[n].Number?
    ensures InProduct(d, PointOf(Project(raw))) && LegalPoint(PointOf(Project(raw)), d.platform)
  {
    hide NAMES, InRange, PaddingRelated, Upstream;
    MembersOfTheProductAreLegal(d, Project(raw));
  }

  lemma MembersOfTheProductAreLegal(d: Domain, c: map<string, Member>)
    requires DomainAccepted(d) && c.Keys == NAMES
    requires forall n | n in d.admissible :: c[n] in d.admissible[n]
    requires forall n | n in d.fixed :: c[n] == d.fixed[n]
    ensures forall n | n in NAMES :: c[n].Number?
    ensures InProduct(d, PointOf(c)) && LegalPoint(PointOf(c), d.platform)
  {
    hide NAMES, InRange, PaddingRelated;
    forall n | n in NAMES ensures c[n].Number? {
      if n in d.fixed {
        assert Canonical(n, d.fixed[n], d.platform).Some?;
      } else {
        var i :| 0 <= i < |d.admissible[n]| && d.admissible[n][i] == c[n];
        assert Canonical(n, d.admissible[n][i], d.platform).Some?;
      }
    }
    var p := PointOf(c);
    forall n | n in d.admissible ensures HasChoice(d.admissible[n], p[n]) { ChosenMember(d.admissible[n], c[n]); }
    AcceptedDomainsAreLegal(d, p);
  }

  /** Main result: every point the seeded proposer answers with, over an accepted domain, is legal. */
  lemma ProposedPointsAreLegal(d: Domain, r: SeededProposal.Request<Member>, c: map<string, Member>)
    requires DomainAccepted(d) && r.names == d.search && r.fixed == d.fixed && r.values == d.admissible
    requires SeededProposal.InDomain(r, c)
    ensures forall n | n in NAMES :: n in c && c[n].Number?
    ensures InProduct(d, PointOf(c)) && LegalPoint(PointOf(c), d.platform)
  {
    hide NAMES, InRange, PaddingRelated;
    assert SeededProposal.NameSet(r.names) == SearchSet(d);
    MembersOfTheProductAreLegal(d, c);
  }
}
