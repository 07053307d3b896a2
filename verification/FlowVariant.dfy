/** The job name of a candidate decides its result directory. A reader inverts the printer, so two legal candidates
    share a directory exactly when they agree after rounding. */
module FlowVariant {
  import opened Wrappers
  import opened Text
  import opened Decimal
  import opened Candidate

  // ----- printing values -----

  /** The digits after the point of a number of thousandths: no trailing zeros, at least one digit. */
  function FractionDigits(frac: nat): (s: string)
    requires frac < 1000
    ensures AllDigits(s) && 1 <= |s| <= 3
  {
    if frac % 100 == 0 then [DigitChar(frac / 100)]
    else if frac % 10 == 0 then [DigitChar(frac / 100), DigitChar(frac / 10 % 10)]
    else [DigitChar(frac / 100), DigitChar(frac / 10 % 10), DigitChar(frac % 10)]
  }

  /** `str(k / 1000)` */
  function PrintMilli(k: nat): string {
    Digits(k / 1000) + ['.'] + FractionDigits(k % 1000)
  }

  function ReadFraction(s: string): nat
    requires AllDigits(s)
  {
    if |s| == 1 then ReadDigits(s) * 100 else if |s| == 2 then ReadDigits(s) * 10 else ReadDigits(s)
  }

  /** Reads what `PrintMilli` or `Digits` printed, in thousandths. */
  function ReadNumber(s: string): Option<int> {
    var i := Find(s, '.');
    if i == |s| then if AllDigits(s) then Some(1000 * ReadDigits(s)) else None
    else if AllDigits(s[..i]) && AllDigits(s[i + 1..]) then Some(1000 * ReadDigits(s[..i]) + ReadFraction(s[i + 1..]))
    else None
  }

  lemma DigitsAreFree(s: string)
    requires AllDigits(s)
    ensures Free(s, '.') && Free(s, '_')
  {
  }

  lemma ReadsThree(a: nat, b: nat, c: nat)
    requires a < 10 && b < 10 && c < 10
    ensures ReadDigits([DigitChar(a)]) == a
    ensures ReadDigits([DigitChar(a), DigitChar(b)]) == 10 * a + b
    ensures ReadDigits([DigitChar(a), DigitChar(b), DigitChar(c)]) == 100 * a + 10 * b + c
  {
    var s1, s2, s3 := [DigitChar(a)], [DigitChar(a), DigitChar(b)], [DigitChar(a), DigitChar(b), DigitChar(c)];
    assert s1[..0] == "" && s2[..1] == s1 && s3[..2] == s2;
  }

  lemma ReadsFraction(frac: nat)
    requires frac < 1000
    ensures ReadFraction(FractionDigits(frac)) == frac
  {
    ReadsThree(frac / 100, frac / 10 % 10, frac % 10);
  }

  lemma ReadsMilli(k: nat)
    ensures ReadNumber(PrintMilli(k)) == Some(k) && Free(PrintMilli(k), '_')
  {
    var whole, frac := Digits(k / 1000), FractionDigits(k % 1000);
    var s := PrintMilli(k);
    assert s == whole + (['.'] + frac);
    DigitsAreFree(whole);
    DigitsAreFree(frac);
    FindIs(whole, ['.'] + frac, '.');
    assert s[..|whole|] == whole && s[|whole| + 1..] == frac;
    ReadsBack(k / 1000);
    ReadsFraction(k % 1000);
  }

  lemma ReadsInteger(n: nat)
    ensures ReadNumber(Digits(n)) == Some(1000 * n) && Free(Digits(n), '_')
  {
    DigitsAreFree(Digits(n));
    FindNothing(Digits(n), '.');
    ReadsBack(n);
  }

  // ----- labels and values -----

  function Render(labels: seq<string>, values: seq<string>): string
    requires |labels| == |values|
  {
    if labels == [] then "" else labels[0] + values[0] + Render(labels[1..], values[1..])
  }

  /** Cuts a name into the values between the labels; a value ends at the next underscore. */
  function Cut(labels: seq<string>, s: string): Option<seq<string>> {
    if labels == [] then if s == "" then Some([]) else None
    else if !(labels[0] <= s) then None
    else
      var rest := s[|labels[0]|..];
      var i := Find(rest, '_');
      var more :- Cut(labels[1..], rest[i..]);
      Some([rest[..i]] + more)
  }

  predicate Underscored(labels: seq<string>) {
    forall i | 1 <= i < |labels| :: labels[i] != "" && labels[i][0] == '_'
  }

  lemma CutsOne(prefix: string, value: string, tail: string)
    requires Free(value, '_') && (tail == "" || tail[0] == '_')
    ensures var s := prefix + value + tail;
            && prefix <= s && s[|prefix|..] == value + tail && Find(value + tail, '_') == |value|
            && (value + tail)[..|value|] == value && (value + tail)[|value|..] == tail
  {
    assert (prefix + value + tail)[|prefix|..] == value + tail;
    if tail == "" {
      assert value + tail == value;
      FindNothing(value, '_');
    } else {
      FindIs(value, tail, '_');
    }
  }

  lemma RenderStarts(labels: seq<string>, values: seq<string>)
    requires |labels| == |values| && (labels != [] ==> labels[0] != "" && labels[0][0] == '_')
    ensures var s := Render(labels, values); s == "" || s[0] == '_'
  {
  }

  lemma {:induction false} CutsRendered(labels: seq<string>, values: seq<string>)
    requires |labels| == |values| && Underscored(labels) && forall i | 0 <= i < |values| :: Free(values[i], '_')
    ensures Cut(labels, Render(labels, values)) == Some(values)
    decreases |labels|
  {
    hide Cut, Find;
    if labels == [] {
      NothingToCut();
    } else {
      CutsRendered(labels[1..], values[1..]);
      RenderStarts(labels[1..], values[1..]);
      CutsFirst(labels, values[0], Render(labels[1..], values[1..]), values[1..]);
      assert [values[0]] + values[1..] == values;
    }
  }

  lemma NothingToCut()
    ensures Cut([], "") == Some([])
  {
  }

  lemma CutsFirst(labels: seq<string>, value: string, tail: string, rest: seq<string>)
    requires labels != [] && Free(value, '_') && (tail == "" || tail[0] == '_') && Cut(labels[1..], tail) == Some(rest)
    ensures Cut(labels, labels[0] + value + tail) == Some([value] + rest)
  {
    hide Find, Free;
    CutsOne(labels[0], value, tail);
  }

  // ----- the job name -----

  const LABELS := ["DESIGN_", "__CLK_", "__UTIL_", "__AR_1__TECH_", "__LB_ADDON_", "__TIMING_EFFORT_",
                   "__POWER_EFFORT_0__HIER_SYNTH_", "__GP_PAD_", "__DP_PAD_", "__RD_1__TD_1__DPO_", "__CTS_CSIZE_",
                   "__CTS_CDIA_", "__PIN_ADJ_", "__UP_ADJ_"]

  /** The parameters in the order the name lists them, after the design and around the platform. */
  const LISTED := ["CLK", "UTIL", "LB_ADDON", "TNS_End_Percent", "HIER_SYNTH", "GP_PAD", "DP_PAD", "DPO", "CTS_CSIZE",
                   "CTS_CDIA", "PIN_ADJ", "UP_ADJ"]

  /** Values a job name can print: non-negative thousandths, whole numbers for the integer parameters. */
  predicate Printable(name: string, x: real) {
    x >= 0.0 && Integral(1000.0 * x) && (name !in FRACTIONAL ==> Integral(x))
  }

  function PrintValue(name: string, x: real): string
    requires Printable(name, x)
  {
    if name in FRACTIONAL then PrintMilli((1000.0 * x).Floor) else Digits(x.Floor)
  }

  predicate PrintablePoint(c: Point) {
    c.Keys == NAMES && forall name | name in NAMES :: Printable(name, c[name])
  }

  function Values(names: seq<string>, c: Point): seq<string>
    requires forall i | 0 <= i < |names| :: names[i] in c && Printable(names[i], c[names[i]])
  {
    seq(|names|, i requires 0 <= i < |names| => PrintValue(names[i], c[names[i]]))
  }

  /** The values of the name: design, two parameters, platform, the other ten. */
  function NameValues(design: string, platform: string, vs: seq<string>): seq<string>
    requires |vs| == 12
  {
    [design, vs[0], vs[1], platform] + vs[2..]
  }

  function JobName(design: string, platform: string, c: Point): string
    requires PrintablePoint(c)
  {
    ListedNames();
    Render(LABELS, NameValues(design, platform, Values(LISTED, c)))
  }

  lemma ListedNames()
    ensures |LISTED| == 12 && NAMES == set i | 0 <= i < |LISTED| :: LISTED[i]
  {
    var ps := LISTED;
    assert ps[0] == "CLK" && ps[1] == "UTIL" && ps[2] == "LB_ADDON" && ps[3] == "TNS_End_Percent"
        && ps[4] == "HIER_SYNTH" && ps[5] == "GP_PAD" && ps[6] == "DP_PAD" && ps[7] == "DPO"
        && ps[8] == "CTS_CSIZE" && ps[9] == "CTS_CDIA" && ps[10] == "PIN_ADJ" && ps[11] == "UP_ADJ";
  }

  lemma LabelsAreUnderscored()
    ensures |LABELS| == 14 && Underscored(LABELS)
  {
    var ls := LABELS;
    assert forall i | 1 <= i < |ls| :: ls[i] != "" && ls[i][0] == '_';
  }

  /** Decimal notation: digits, then for thousandths a point and up to three digits. No digit could be left out. */
  predicate Canonical(whole: string, fraction: string) {
    && AllDigits(whole) && whole != "" && (whole[0] == '0' ==> whole == "0")
    && AllDigits(fraction) && 1 <= |fraction| <= 3 && (fraction[|fraction| - 1] == '0' ==> |fraction| == 1)
  }

  lemma {:induction false} DigitsAreCanonical(n: nat)
    ensures if n == 0 then Digits(n) == "0" else Digits(n)[0] != '0'
    decreases n
  {
    if n >= 10 {
      DigitsAreCanonical(n / 10);
      assert Digits(n)[0] == Digits(n / 10)[0];
    }
  }

  /** A printed number of thousandths is its decimal notation. */
  lemma PrintsDecimals(k: nat) returns (whole: string, fraction: string)
    ensures PrintMilli(k) == whole + "." + fraction && Canonical(whole, fraction)
    ensures k == 1000 * ReadDigits(whole)
                 + ReadDigits(fraction) * (if |fraction| == 1 then 100 else if |fraction| == 2 then 10 else 1)
  {
    whole, fraction := Digits(k / 1000), FractionDigits(k % 1000);
    DigitsAreCanonical(k / 1000);
    ReadsBack(k / 1000);
    ReadsFraction(k % 1000);
  }

  /** Each label followed by its value. */
  function Laid(fields: seq<(string, string)>): string {
    if fields == [] then "" else fields[0].0 + fields[0].1 + Laid(fields[1..])
  }

  lemma {:induction false} RenderIsLaid(labels: seq<string>, values: seq<string>, fields: seq<(string, string)>)
    requires |labels| == |values| == |fields|
    requires forall i | 0 <= i < |fields| :: fields[i] == (labels[i], values[i])
    ensures Render(labels, values) == Laid(fields)
    decreases |labels|
  {
    if labels != [] { RenderIsLaid(labels[1..], values[1..], fields[1..]); }
  }

  function Decimals(x: real): string
    requires x >= 0.0
  {
    PrintMilli((1000.0 * x).Floor)
  }

  function Whole(x: real): string
    requires x >= 0.0
  {
    Digits(x.Floor)
  }

  /** Main result: the name lists every parameter once, under its label, with four decimal values and eight whole ones,
      and fixes the other five settings. */
  lemma JobNameIsLaidOut(design: string, platform: string, c: Point)
    requires PrintablePoint(c)
    ensures forall name | name in c :: c[name] >= 0.0
    ensures JobName(design, platform, c) == Laid(
      [("DESIGN_", design), ("__CLK_", Decimals(c["CLK"])), ("__UTIL_", Whole(c["UTIL"])),
       ("__AR_1__TECH_", platform), ("__LB_ADDON_", Decimals(c["LB_ADDON"])),
       ("__TIMING_EFFORT_", Whole(c["TNS_End_Percent"])),
       ("__POWER_EFFORT_0__HIER_SYNTH_", Whole(c["HIER_SYNTH"])), ("__GP_PAD_", Whole(c["GP_PAD"])),
       ("__DP_PAD_", Whole(c["DP_PAD"])), ("__RD_1__TD_1__DPO_", Whole(c["DPO"])),
       ("__CTS_CSIZE_", Whole(c["CTS_CSIZE"])), ("__CTS_CDIA_", Whole(c["CTS_CDIA"])),
       ("__PIN_ADJ_", Decimals(c["PIN_ADJ"])), ("__UP_ADJ_", Decimals(c["UP_ADJ"]))])
  {
    ListedNames();
    PrintedAre(c);
    hide Render, Laid, Values, Decimals, Whole;
    FieldsAreLaid(design, platform, Values(LISTED, c));
  }

  lemma PrintedAre(c: Point)
    requires PrintablePoint(c) && forall i | 0 <= i < |LISTED| :: LISTED[i] in c
    ensures forall name | name in c :: c[name] >= 0.0
    ensures Values(LISTED, c) ==
            [Decimals(c["CLK"]), Whole(c["UTIL"]), Decimals(c["LB_ADDON"]), Whole(c["TNS_End_Percent"]),
             Whole(c["HIER_SYNTH"]), Whole(c["GP_PAD"]), Whole(c["DP_PAD"]), Whole(c["DPO"]), Whole(c["CTS_CSIZE"]),
             Whole(c["CTS_CDIA"]), Decimals(c["PIN_ADJ"]), Decimals(c["UP_ADJ"])]
  {
    hide Digits, PrintMilli;
    forall name | name in c ensures c[name] >= 0.0 { assert Printable(name, c[name]); }
  }

  lemma FieldsAreLaid(design: string, platform: string, vs: seq<string>)
    requires |vs| == 12
    ensures |LABELS| == 14
    ensures Render(LABELS, NameValues(design, platform, vs)) == Laid(
      [("DESIGN_", design), ("__CLK_", vs[0]), ("__UTIL_", vs[1]), ("__AR_1__TECH_", platform), ("__LB_ADDON_", vs[2]),
       ("__TIMING_EFFORT_", vs[3]), ("__POWER_EFFORT_0__HIER_SYNTH_", vs[4]), ("__GP_PAD_", vs[5]),
       ("__DP_PAD_", vs[6]), ("__RD_1__TD_1__DPO_", vs[7]), ("__CTS_CSIZE_", vs[8]), ("__CTS_CDIA_", vs[9]),
       ("__PIN_ADJ_", vs[10]), ("__UP_ADJ_", vs[11])])
  {
    hide Render, Laid;
    RenderIsLaid(LABELS, NameValues(design, platform, vs),
      [("DESIGN_", design), ("__CLK_", vs[0]), ("__UTIL_", vs[1]), ("__AR_1__TECH_", platform), ("__LB_ADDON_", vs[2]),
       ("__TIMING_EFFORT_", vs[3]), ("__POWER_EFFORT_0__HIER_SYNTH_", vs[4]), ("__GP_PAD_", vs[5]),
       ("__DP_PAD_", vs[6]), ("__RD_1__TD_1__DPO_", vs[7]), ("__CTS_CSIZE_", vs[8]), ("__CTS_CDIA_", vs[9]),
       ("__PIN_ADJ_", vs[10]), ("__UP_ADJ_", vs[11])]);
  }

  /** Printing a value loses nothing. */
  lemma ValueReadsBack(name: string, x: real)
    requires Printable(name, x)
    ensures ReadNumber(PrintValue(name, x)) == Some((1000.0 * x).Floor)
    ensures Free(PrintValue(name, x), '_')
  {
    if name in FRACTIONAL {
      ReadsMilli((1000.0 * x).Floor);
    } else {
      ReadsInteger(x.Floor);
      ScaledInteger(x.Floor);
    }
  }

  function Numbers(vs: seq<string>): seq<Option<int>> {
    seq(|vs|, i requires 0 <= i < |vs| => ReadNumber(vs[i]))
  }

  /** The reader: the values of a job name, as the printer laid them out. */
  function ReadJobName(s: string): Option<(string, string, seq<Option<int>>)> {
    var vs :- Cut(LABELS, s);
    if |vs| != 14 then None
    else
      var numbers := [vs[1], vs[2]] + vs[4..];
      Some((vs[0], vs[3], Numbers(numbers)))
  }

  /** The thousandths of a point, in the order of the name. */
  function Thousandths(names: seq<string>, c: Point): seq<Option<int>>
    requires forall i | 0 <= i < |names| :: names[i] in c && Printable(names[i], c[names[i]])
  {
    seq(|names|, i requires 0 <= i < |names| => Some((1000.0 * c[names[i]]).Floor))
  }

  /** Main result: the reader gives back the design, the platform and all twelve values. */
  lemma JobNameReadsBack(design: string, platform: string, c: Point)
    requires PrintablePoint(c) && Free(design, '_') && Free(platform, '_')
    ensures forall i | 0 <= i < |LISTED| :: LISTED[i] in c
    ensures ReadJobName(JobName(design, platform, c)) == Some((design, platform, Thousandths(LISTED, c)))
  {
    ListedNames();
    hide LISTED, ReadJobName, Thousandths, NAMES;
    var names := LISTED;
    var vs := Values(names, c);
    NumbersReadBack(names, c);
    ReadsName(design, platform, vs);
  }

  lemma NumbersReadBack(names: seq<string>, c: Point)
    requires forall i | 0 <= i < |names| :: names[i] in c && Printable(names[i], c[names[i]])
    ensures Numbers(Values(names, c)) == Thousandths(names, c)
    ensures forall i | 0 <= i < |names| :: Free(Values(names, c)[i], '_')
  {
    hide PrintValue, ReadNumber, Printable, Free;
    forall i | 0 <= i < |names|
      ensures Free(Values(names, c)[i], '_') && Numbers(Values(names, c))[i] == Thousandths(names, c)[i]
    {
      ValueReadsBack(names[i], c[names[i]]);
    }
  }

  /** A rendered name is cut into its values again, and its numbers are those of the twelve values. */
  lemma ReadsName(design: string, platform: string, vs: seq<string>)
    requires |vs| == 12 && Free(design, '_') && Free(platform, '_') && forall i | 0 <= i < 12 :: Free(vs[i], '_')
    ensures |LABELS| == 14
    ensures ReadJobName(Render(LABELS, NameValues(design, platform, vs))) == Some((design, platform, Numbers(vs)))
  {
    LabelsAreUnderscored();
    hide LABELS, Cut, Render, ReadNumber, Free;
    var all := NameValues(design, platform, vs);
    CutsRendered(LABELS, all);
    assert [all[1], all[2]] + all[4..] == vs;
  }

  lemma LegalIsPrintable(c: Point, asap7: bool)
    requires Legal(c, asap7)
    ensures PrintablePoint(Execution(c))
  {
    hide NAMES, Executed, Bounds, Integral, FRACTIONAL;
    forall name | name in NAMES ensures Printable(name, Executed(name, c[name])) {
      RoundedInRange(name, c[name], asap7);
      assert InRange(name, Executed(name, c[name]), asap7);
      BoundsAreNonNegative(name, asap7);
    }
  }

  lemma BoundsAreNonNegative(name: string, asap7: bool)
    ensures Bounds(name, asap7).0 >= 0
  {
  }

  lemma SameThousandths(x: real, y: real)
    requires Integral(1000.0 * x) && Integral(1000.0 * y) && (1000.0 * x).Floor == (1000.0 * y).Floor
    ensures x == y
  {
  }

  /** Main result: two legal candidates get the same result directory exactly when design, platform and all twelve
      values agree after rounding. */
  lemma SameDirectoryIffSameExecution(design: string, platform: string, c: Point, asap7: bool,
                                      design2: string, platform2: string, d: Point, asap72: bool)
    requires Legal(c, asap7) && Legal(d, asap72)
    requires Free(design, '_') && Free(platform, '_') && Free(design2, '_') && Free(platform2, '_')
    ensures PrintablePoint(Execution(c)) && PrintablePoint(Execution(d))
    ensures JobName(design, platform, Execution(c)) == JobName(design2, platform2, Execution(d))
      <==> design == design2 && platform == platform2 && Execution(c) == Execution(d)
  {
    LegalIsPrintable(c, asap7);
    LegalIsPrintable(d, asap72);
    hide Execution, JobName, Legal, PrintablePoint;
    if JobName(design, platform, Execution(c)) == JobName(design2, platform2, Execution(d)) {
      SameNameSamePoint(design, platform, Execution(c), design2, platform2, Execution(d));
    }
  }

  lemma SameNameSamePoint(design: string, platform: string, e: Point, design2: string, platform2: string, f: Point)
    requires PrintablePoint(e) && PrintablePoint(f)
    requires Free(design, '_') && Free(platform, '_') && Free(design2, '_') && Free(platform2, '_')
    requires JobName(design, platform, e) == JobName(design2, platform2, f)
    ensures design == design2 && platform == platform2 && e == f
  {
    hide LISTED, NAMES, JobName, ReadJobName, Free;
    JobNameReadsBack(design, platform, e);
    JobNameReadsBack(design2, platform2, f);
    ListedNames();
    var names := LISTED;
    forall name | name in NAMES ensures e[name] == f[name] {
      var i :| 0 <= i < |names| && names[i] == name;
      assert Thousandths(names, e)[i] == Thousandths(names, f)[i];
      SameThousandths(e[name], f[name]);
    }
    assert e == f;
  }
}
