/** The health-score engine: every environmental and economic indicator is
    mapped onto 0..100 (100 best) by a clamped piecewise-linear curve, and
    the indicators are combined by a weighted average that skips missing
    ones. Scores are stated exactly, before Python's `round(x, 1)`. */
module VegasScoring {
  import opened Common
  import SourceFetch
  import Economic

  /** `max(lo, min(hi, v))`. */
  function Clamp(v: real, lo: real, hi: real): (r: real)
    ensures lo <= hi ==> lo <= r <= hi
    ensures lo <= v <= hi ==> r == v
    ensures v < lo ==> r == lo
    ensures lo <= hi && hi < v ==> r == hi
  {
    if hi < v then (if lo < hi then hi else lo)
    else if lo < v then v else lo
  }

  /** Clamping with the default bounds 0 and 100. */
  function Clamp100(v: real): (r: real)
    ensures 0.0 <= r <= 100.0
    ensures 0.0 <= v <= 100.0 ==> r == v
  {
    Clamp(v, 0.0, 100.0)
  }

  lemma ClampMonotone(a: real, b: real)
    requires a <= b
    ensures Clamp100(a) <= Clamp100(b)
  {
  }

  // ---------------------------------------------------------------------
  // Environmental curves

  /** Air quality: 100 - 0.6 per AQI point. */
  function AqiScore(aqi: real): (r: real)
    ensures 0.0 <= r <= 100.0
    ensures aqi <= 0.0 ==> r == 100.0
    ensures aqi * 3.0 >= 500.0 ==> r == 0.0
  {
    Clamp100(100.0 - aqi * 0.6)
  }

  /** The curve's actual anchors: AQI 42 scores 74.8, AQI 50 scores 70
      and AQI 100 scores 40 (the higher anchors written beside the formula
      in the source, 90 and 50, are not what it computes). */
  lemma AqiAnchors()
    ensures AqiScore(0.0) == 100.0 && AqiScore(42.0) == 74.8
    ensures AqiScore(50.0) == 70.0 && AqiScore(100.0) == 40.0
    ensures AqiScore(150.0) == 10.0 && AqiScore(200.0) == 0.0
  {
  }

  /** Heat comfort: flat 100 on 65..80 °F, 2 points per degree below,
      1.5 points per degree above. */
  function HeatScore(t: real): (r: real)
    ensures 0.0 <= r <= 100.0
    ensures r == 100.0 <==> 65.0 <= t <= 80.0
  {
    if 65.0 <= t <= 80.0 then 100.0
    else if t < 65.0 then Clamp100(100.0 - (65.0 - t) * 2.0)
    else Clamp100(100.0 - (t - 80.0) * 1.5)
  }

  /** Comfort never falls while warming towards the band, and never rises
      while warming past it. */
  lemma HeatMonotone(a: real, b: real)
    requires a <= b
    ensures b <= 80.0 ==> HeatScore(a) <= HeatScore(b)
    ensures 65.0 <= a ==> HeatScore(b) <= HeatScore(a)
  {
    ClampMonotone(100.0 - (65.0 - a) * 2.0, 100.0 - (65.0 - b) * 2.0);
    ClampMonotone(100.0 - (b - 80.0) * 1.5, 100.0 - (a - 80.0) * 1.5);
  }

  /** UV exposure: a step-down curve with a floor of 5. */
  function UvScore(uv: real): (r: real)
    ensures 5.0 <= r <= 100.0
    ensures r == 100.0 <==> uv <= 2.0
  {
    if uv <= 2.0 then 100.0
    else if uv <= 5.0 then 90.0 - (uv - 2.0) * 10.0
    else if uv <= 7.0 then 60.0 - (uv - 5.0) * 10.0
    else if uv <= 10.0 then 40.0 - (uv - 7.0) * 10.0
    else if 10.0 - (uv - 10.0) * 5.0 < 5.0 then 5.0 else 10.0 - (uv - 10.0) * 5.0
  }

  /** A higher UV index never scores better. */
  lemma UvMonotone(a: real, b: real)
    requires a <= b
    ensures UvScore(b) <= UvScore(a)
  {
  }

  function WaterScore(pctCapacity: real): (r: real)
    ensures 0.0 <= r <= 100.0
    ensures 0.0 <= pctCapacity <= 100.0 ==> r == pctCapacity
  {
    Clamp100(pctCapacity)
  }

  function DroughtScore(pctArea: real): (r: real)
    ensures 0.0 <= r <= 100.0
    ensures 0.0 <= pctArea <= 100.0 ==> r == 100.0 - pctArea
  {
    Clamp100(100.0 - pctArea)
  }

  /** Alerts: 15 points per active alert. */
  function AlertScore(count: int): (r: real)
    ensures 0.0 <= r <= 100.0
    ensures 0 <= count <= 6 ==> r == 100.0 - 15.0 * count as real
    ensures count >= 7 ==> r == 0.0
  {
    Clamp100(100.0 - (count as real) * 15.0)
  }

  // ---------------------------------------------------------------------
  // Economic curves

  /** Unemployment rate: 3% scores 100, 10% scores 0. */
  function UnemploymentScore(u: real): (r: real)
    ensures 0.0 <= r <= 100.0
    ensures u <= 3.0 ==> r == 100.0
    ensures u >= 10.0 ==> r == 0.0
  {
    Clamp100(100.0 - (u - 3.0) * (100.0 / 7.0))
  }

  /** Year-over-year job change in thousands: -30K, 0 and +30K score 0, 50, 100. */
  function JobGrowthScore(change: real): (r: real)
    ensures 0.0 <= r <= 100.0
    ensures change >= 30.0 ==> r == 100.0
    ensures change <= -30.0 ==> r == 0.0
    ensures change == 0.0 ==> r == 50.0
  {
    Clamp100(50.0 + change * (50.0 / 30.0))
  }

  /** Leisure and hospitality jobs as a percentage of a 290K peak. */
  function HospitalityScore(jobsK: real): (r: real)
    ensures 0.0 <= r <= 100.0
    ensures jobsK >= 290.0 ==> r == 100.0
    ensures 0.0 <= jobsK <= 290.0 ==> r == jobsK / 290.0 * 100.0
  {
    Clamp100(jobsK / 290.0 * 100.0)
  }

  /** Consumer price index: 300 scores 100, 340 scores 0. */
  function CpiScore(cpi: real): (r: real)
    ensures 0.0 <= r <= 100.0
    ensures cpi <= 300.0 ==> r == 100.0
    ensures cpi >= 340.0 ==> r == 0.0
  {
    Clamp100(100.0 - (cpi - 300.0) * (100.0 / 40.0))
  }

  /** Median home value: $250K scores 100, falling 80 points per $350K. */
  function HousingScore(hv: real): (r: real)
    ensures 0.0 <= r <= 100.0
    ensures hv <= 250000.0 ==> r == 100.0
    ensures hv == 600000.0 ==> r == 20.0
  {
    Clamp100(100.0 - (hv - 250000.0) / 350000.0 * 80.0)
  }

  /** Gas price per gallon: $3 scores 100, $5 scores 0. */
  function GasScore(g: real): (r: real)
    ensures 0.0 <= r <= 100.0
    ensures g <= 3.0 ==> r == 100.0
    ensures g >= 5.0 ==> r == 0.0
  {
    Clamp100(100.0 - (g - 3.0) / 2.0 * 100.0)
  }

  /** 30-year mortgage rate: 5% scores 100, 7% scores 40, 8% scores 10. */
  function MortgageScore(m: real): (r: real)
    ensures 0.0 <= r <= 100.0
    ensures m <= 5.0 ==> r == 100.0
    ensures m == 7.0 ==> r == 40.0
    ensures m == 8.0 ==> r == 10.0
  {
    Clamp100(100.0 - (m - 5.0) / 3.0 * 90.0)
  }

  /** Every economic curve falls (or, for jobs, rises) monotonically. */
  lemma EconomicMonotone(a: real, b: real)
    requires a <= b
    ensures UnemploymentScore(b) <= UnemploymentScore(a)
    ensures JobGrowthScore(a) <= JobGrowthScore(b)
    ensures HospitalityScore(a) <= HospitalityScore(b)
    ensures CpiScore(b) <= CpiScore(a)
    ensures HousingScore(b) <= HousingScore(a)
    ensures GasScore(b) <= GasScore(a)
    ensures MortgageScore(b) <= MortgageScore(a)
  {
    ClampMonotone(100.0 - (b - 3.0) * (100.0 / 7.0), 100.0 - (a - 3.0) * (100.0 / 7.0));
    ClampMonotone(50.0 + a * (50.0 / 30.0), 50.0 + b * (50.0 / 30.0));
    ClampMonotone(a / 290.0 * 100.0, b / 290.0 * 100.0);
    ClampMonotone(100.0 - (b - 300.0) * (100.0 / 40.0), 100.0 - (a - 300.0) * (100.0 / 40.0));
    ClampMonotone(100.0 - (b - 250000.0) / 350000.0 * 80.0, 100.0 - (a - 250000.0) / 350000.0 * 80.0);
    ClampMonotone(100.0 - (b - 3.0) / 2.0 * 100.0, 100.0 - (a - 3.0) / 2.0 * 100.0);
    ClampMonotone(100.0 - (b - 5.0) / 3.0 * 90.0, 100.0 - (a - 5.0) / 3.0 * 90.0);
  }

  // ---------------------------------------------------------------------
  // Score sheets

  /** The label shown beside an indicator. The formatted text of a raw
      value (`"85.0°F"`, `"UV 7"`, ...) is represented by the value itself. */
  datatype Label = Unavailable | ParseError | Category(text: string) | Shown(value: real)

  datatype ScoreEntry = ScoreEntry(score: Option<real>, raw: Option<real>, caption: Label)

  const Missing := ScoreEntry(None, None, Unavailable)

  /** A scored indicator; its score is a number in 0..100. */
  predicate WellFormed(e: ScoreEntry) {
    e.score.Some? ==> 0.0 <= e.score.value <= 100.0
  }

  /** The indicators of one group in insertion order, and their weighted
      overall score. */
  datatype ScoreSheet = ScoreSheet(entries: seq<(string, ScoreEntry)>, overall: Option<real>)

  /** Fetched environmental data. A source that failed (an `{"error": ..}`
      entry) has its value `None`. */
  datatype Weather = WeatherError | Weather(temperature: string)

  datatype EnvData = EnvData(
    aqi: Option<(real, string)>,       // AQI and its category
    weather: Weather,                  // the reported temperature text
    pctCapacity: Option<real>,         // reservoir fill
    uvIndex: Option<real>,
    drought: Option<(real, string)>,   // percentage of area and category
    alerts: Option<int>)               // Clark County alert count

  /** Fetched economic data; `yoyChange` is the year-over-year text the
      employment fetcher writes, "" when it has none. */
  datatype EconData = EconData(
    unemployment: Option<real>,
    yoyChange: string,
    leisureJobsK: Option<real>,
    cpi: Option<real>,
    homeValue: Option<real>,
    gasPrice: Option<real>,
    mortgageRate: Option<real>)

  /** `s.replace(pat, "")`: the occurrences of `pat`, found left to right
      without overlapping, removed. */
  function Remove(s: string, pat: string): (r: string)
    requires pat != []
    ensures |r| <= |s|
    decreases |s|
  {
    if |s| < |pat| then s
    else if s[..|pat|] == pat then Remove(s[|pat|..], pat)
    else [s[0]] + Remove(s[1..], pat)
  }

  /** Text without the first character of `pat` is kept as it is, and no
      occurrence starts inside it. */
  lemma {:induction false} RemoveSkips(a: string, b: string, pat: string)
    requires pat != [] && forall i :: 0 <= i < |a| ==> a[i] != pat[0]
    ensures Remove(a + b, pat) == a + Remove(b, pat)
    decreases |a|
  {
    if a == [] {
      assert a + b == b;
    } else {
      var s := a + b;
      assert s[0] == a[0] && s[1..] == a[1..] + b;
      RemoveSkips(a[1..], b, pat);
      if |s| < |pat| {
        assert Remove(b, pat) == b;
      } else {
        assert s[..|pat|] != pat by {
          assert s[..|pat|][0] == a[0];
        }
        assert Remove(s, pat) == [a[0]] + Remove(a[1..] + b, pat);
        assert [a[0]] + (a[1..] + Remove(b, pat)) == a + Remove(b, pat);
      }
    }
  }

  /** The pattern itself is removed entirely. */
  lemma RemoveWhole(pat: string)
    requires pat != []
    ensures Remove(pat, pat) == []
  {
    assert pat[..|pat|] == pat;
    assert pat[|pat|..] == [];
  }

  /** `float(str(t).replace("°F", "").replace("°C", "").strip())`; `float`
      ignores surrounding whitespace, so the strip is part of the parse. */
  function ParseTemperature(t: string): Option<real> {
    SourceFetch.ParseDecimal(Remove(Remove(t, "°F"), "°C"))
  }

  /** `float(yoy.replace("K YoY", "").replace("+", "").strip())`. */
  function ParseYoy(yoy: string): Option<real> {
    SourceFetch.ParseDecimal(Remove(Remove(yoy, "K YoY"), "+"))
  }

  /** Heat comfort: unavailable without a temperature or when the weather
      source failed, a parse error when the temperature does not read as a
      number, otherwise the comfort curve at the number read. */
  function HeatEntry(w: Weather): (e: ScoreEntry)
    ensures WellFormed(e)
    ensures (w.WeatherError? || w.temperature == []) ==> e == Missing
    ensures w.Weather? && w.temperature != [] && ParseTemperature(w.temperature).None? ==>
      e == ScoreEntry(None, None, ParseError)
    ensures e.score.Some? <==> w.Weather? && w.temperature != [] && ParseTemperature(w.temperature).Some?
    ensures e.score.Some? ==> e.raw == ParseTemperature(w.temperature) && e.score.value == HeatScore(e.raw.value)
  {
    if w.Weather? && w.temperature != [] then
      match ParseTemperature(w.temperature)
      case Some(t) => ScoreEntry(Some(HeatScore(t)), Some(t), Shown(t))
      case None => ScoreEntry(None, None, ParseError)
    else Missing
  }

  /** A whole Fahrenheit reading such as "85°F" scores its number. */
  lemma HeatOfFahrenheit(n: nat)
    ensures HeatEntry(Weather(NatToString(n) + "°F")) ==
      ScoreEntry(Some(HeatScore(n as real)), Some(n as real), Shown(n as real))
  {
    var digits := NatToString(n);
    RemoveSkips(digits, "°F", "°F");
    RemoveWhole("°F");
    assert Remove(digits + "°F", "°F") == digits;
    RemoveSkips(digits, [], "°C");
    assert digits + [] == digits;
    SourceFetch.NatParsesAsDecimal(n);
    assert ParseTemperature(digits + "°F") == Some(n as real);
  }

  /** Job growth: needs a non-empty year-over-year text containing "K";
      a parse error when the rest does not read as a number, otherwise the
      job-growth curve at the number read. */
  function JobGrowthEntry(yoy: string): (e: ScoreEntry)
    ensures WellFormed(e)
    ensures !(yoy != [] && Contains(yoy, "K")) ==> e == Missing
    ensures yoy != [] && Contains(yoy, "K") && ParseYoy(yoy).None? ==> e == ScoreEntry(None, None, ParseError)
    ensures e.score.Some? <==> yoy != [] && Contains(yoy, "K") && ParseYoy(yoy).Some?
    ensures e.score.Some? ==> e.raw == ParseYoy(yoy) && e.score.value == JobGrowthScore(e.raw.value)
  {
    if yoy != [] && Contains(yoy, "K") then
      match ParseYoy(yoy)
      case Some(change) => ScoreEntry(Some(JobGrowthScore(change)), Some(change), Shown(change))
      case None => ScoreEntry(None, None, ParseError)
    else Missing
  }

  lemma {:induction false} ContainsAfter(a: string, b: string, sub: string)
    requires StartsWith(b, sub)
    ensures Contains(a + b, sub)
    decreases |a|
  {
    if a == [] {
      assert a + b == b;
    } else {
      assert (a + b)[1..] == a[1..] + b;
      ContainsAfter(a[1..], b, sub);
    }
  }

  /** The text the employment fetcher writes scores the change it
      reports: "" is unavailable, and "+N.NK YoY" or "-N.NK YoY" is read
      back as that number of thousands. */
  lemma FetchedYoyScores(tenths: Option<int>)
    ensures tenths.None? ==> JobGrowthEntry(Economic.YoyText(tenths)) == Missing
    ensures tenths.Some? ==> JobGrowthEntry(Economic.YoyText(tenths)) == ReadingEntry(Some(tenths.value as real / 10.0))
  {
    match tenths
    case None =>
      assert Economic.YoyText(tenths) == [];
    case Some(t) =>
      ChangeTextScores(t);
  }

  /** A reported change of `t` tenths of a thousand jobs scores as
      `t / 10` thousand. */
  lemma {:induction false} ChangeTextScores(t: int)
    ensures JobGrowthEntry(Economic.YoyText(Some(t))) == ReadingEntry(Some(t as real / 10.0))
  {
    YoyTextParses(t);
    JobGrowthOfReading(Economic.YoyText(Some(t)), Some(t as real / 10.0));
  }

  /** The job-growth entry of a change read as a number. */
  function ReadingEntry(read: Option<real>): (e: ScoreEntry)
    requires read.Some?
    ensures e.score == Some(JobGrowthScore(read.value)) && e.raw == read && e.caption == Shown(read.value)
  {
    ScoreEntry(Some(JobGrowthScore(read.value)), read, Shown(read.value))
  }

  /** A text with a "K" that reads as a number scores that number. */
  lemma JobGrowthOfReading(yoy: string, read: Option<real>)
    requires yoy != [] && Contains(yoy, "K") && read.Some? && ParseYoy(yoy) == read
    ensures JobGrowthEntry(yoy) == ReadingEntry(read)
  {
  }

  /** "+N.NK YoY" and "-N.NK YoY" contain "K" and read as the signed
      number of thousands. */
  lemma YoyTextParses(t: int)
    ensures var text := Economic.YoyText(Some(t));
      Contains(text, "K") && ParseYoy(text) == Some(t as real / 10.0)
  {
    var whole, tenth := YoyTextParts(t);
    SourceFetch.OneDecimalParses(whole, tenth);
    DecimalNumeralChars(whole, tenth);
    if t < 0 {
      MinusYoyReads(NatToString(whole) + "." + NatToString(tenth));
    } else {
      PlusYoyReads(NatToString(whole) + "." + NatToString(tenth));
    }
  }

  /** The year-over-year text is the sign of `t`, the whole part of `|t|`
      tenths, a point, its last digit and "K YoY"; the parts make up
      `t / 10` (stated on the parsed value so that it substitutes into a
      parse result as it stands). */
  lemma YoyTextParts(t: int) returns (whole: nat, tenth: nat)
    ensures tenth < 10
    ensures var y := NatToString(whole) + "." + NatToString(tenth);
      Economic.YoyText(Some(t)) == (if t < 0 then "-" else "+") + y + "K YoY"
    ensures t < 0 ==> Some(t as real / 10.0) == Some(-(whole as real + tenth as real / 10.0))
    ensures t >= 0 ==> Some(t as real / 10.0) == Some(whole as real + tenth as real / 10.0)
  {
    var m: nat := if t < 0 then -t else t;
    whole, tenth := m / 10, m % 10;
    assert m == whole * 10 + tenth;
  }

  /** Text made only of digits and points. */
  predicate NumeralChars(y: string) {
    forall i :: 0 <= i < |y| ==> y[i] == '.' || '0' <= y[i] <= '9'
  }

  /** `whole.tenth` is made of digits and a point. */
  lemma DecimalNumeralChars(whole: nat, tenth: nat)
    ensures NumeralChars(NatToString(whole) + "." + NatToString(tenth))
  {
    var y := NatToString(whole) + "." + NatToString(tenth);
    var a := NatToString(whole);
    assert forall i :: 0 <= i < |a| ==> y[i] == a[i];
    assert forall i :: |a| < i < |y| ==> y[i] == NatToString(tenth)[i - |a| - 1];
  }

  /** "+", a numeral and "K YoY" read as the numeral. */
  lemma PlusYoyReads(y: string)
    requires NumeralChars(y)
    ensures Contains("+" + y + "K YoY", "K") && ParseYoy("+" + y + "K YoY") == SourceFetch.ParseDecimal(y)
  {
    DropPlus(y);
    YoyReads("+", y, y);
  }

  /** "-", a numeral and "K YoY" read as the numeral with its minus sign. */
  lemma MinusYoyReads(y: string)
    requires NumeralChars(y)
    ensures Contains("-" + y + "K YoY", "K") && ParseYoy("-" + y + "K YoY") == SourceFetch.ParseDecimal("-" + y)
  {
    DropPlus(y);
    YoyReads("-", y, "-" + y);
  }

  /** A signed numeral followed by "K YoY" reads as the numeral with its
      plus sign dropped. */
  lemma YoyReads(sign: string, y: string, dropped: string)
    requires sign == "+" || sign == "-"
    requires NumeralChars(y)
    requires Remove(sign + y, "+") == dropped
    ensures Contains(sign + y + "K YoY", "K")
    ensures ParseYoy(sign + y + "K YoY") == SourceFetch.ParseDecimal(dropped)
  {
    var x := sign + y;
    assert forall i :: 0 <= i < |x| ==> x[i] != 'K' by {
      assert forall i :: 1 <= i < |x| ==> x[i] == y[i - 1];
    }
    RemoveSuffix(x);
  }

  /** Removing "K YoY" from a numeral followed by it leaves the numeral. */
  lemma RemoveSuffix(x: string)
    requires forall i :: 0 <= i < |x| ==> x[i] != 'K'
    ensures Remove(x + "K YoY", "K YoY") == x
    ensures Contains(x + "K YoY", "K")
  {
    RemoveSkips(x, "K YoY", "K YoY");
    RemoveWhole("K YoY");
    assert x + [] == x;
    ContainsAfter(x, "K YoY", "K");
  }

  /** Removing "+" drops a leading plus sign and keeps a minus sign. */
  lemma DropPlus(y: string)
    requires forall i :: 0 <= i < |y| ==> y[i] != '+'
    ensures Remove("+" + y, "+") == y
    ensures Remove("-" + y, "+") == "-" + y
  {
    RemoveSkips(y, [], "+");
    assert y + [] == y;
    var plus := "+" + y;
    assert plus[..1] == "+" && plus[1..] == y;
    RemoveSkips("-" + y, [], "+");
    assert "-" + y + [] == "-" + y;
  }

  const EnvWeights: seq<(string, real)> := [
    ("air_quality", 0.25), ("heat_comfort", 0.20), ("water_supply", 0.20),
    ("uv_exposure", 0.15), ("drought", 0.10), ("alerts", 0.10)]

  const EconWeights: seq<(string, real)> := [
    ("unemployment", 0.20), ("job_growth", 0.20), ("hospitality_strength", 0.15),
    ("cost_of_living", 0.15), ("housing", 0.15), ("gas_prices", 0.05), ("mortgage", 0.10)]

  function WeightSum(weights: seq<(string, real)>): real {
    if weights == [] then 0.0 else weights[0].1 + WeightSum(weights[1..])
  }

  /** Both weight tables are positive and add up to one. */
  lemma WeightTablesSumToOne()
    ensures WeightSum(EnvWeights) == 1.0 && WeightSum(EconWeights) == 1.0
    ensures PositiveWeights(EnvWeights) && PositiveWeights(EconWeights)
  {
    assert WeightSum(EnvWeights[5..]) == 0.10;
    assert WeightSum(EnvWeights[4..]) == 0.20;
    assert WeightSum(EnvWeights[3..]) == 0.35;
    assert WeightSum(EnvWeights[2..]) == 0.55;
    assert WeightSum(EnvWeights[1..]) == 0.75;
    assert WeightSum(EconWeights[6..]) == 0.10;
    assert WeightSum(EconWeights[5..]) == 0.15;
    assert WeightSum(EconWeights[4..]) == 0.30;
    assert WeightSum(EconWeights[3..]) == 0.45;
    assert WeightSum(EconWeights[2..]) == 0.60;
    assert WeightSum(EconWeights[1..]) == 0.80;
  }

  /** The environmental indicators under their weight-table keys, each
      scored by its curve from the fetched value. */
  function EnvEntries(d: EnvData): (es: seq<(string, ScoreEntry)>)
    ensures |es| == 6
    ensures forall i :: 0 <= i < 6 ==> es[i].0 == EnvWeights[i].0 && WellFormed(es[i].1)
    ensures d.aqi.Some? ==>
      es[0].1 == ScoreEntry(Some(AqiScore(d.aqi.value.0)), Some(d.aqi.value.0), Category(d.aqi.value.1))
    ensures es[1].1 == HeatEntry(d.weather)
    ensures d.pctCapacity.Some? ==>
      es[2].1 == ScoreEntry(Some(WaterScore(d.pctCapacity.value)), d.pctCapacity, Shown(d.pctCapacity.value))
    ensures d.uvIndex.Some? ==>
      es[3].1 == ScoreEntry(Some(UvScore(d.uvIndex.value)), d.uvIndex, Shown(d.uvIndex.value))
    ensures d.drought.Some? ==>
      es[4].1 == ScoreEntry(Some(DroughtScore(d.drought.value.0)), Some(d.drought.value.0), Category(d.drought.value.1))
    ensures d.alerts.Some? ==>
      es[5].1 == ScoreEntry(Some(AlertScore(d.alerts.value)), Some(d.alerts.value as real), Shown(d.alerts.value as real))
  {
    [("air_quality", if d.aqi.Some? then ScoreEntry(Some(AqiScore(d.aqi.value.0)), Some(d.aqi.value.0), Category(d.aqi.value.1)) else Missing),
     ("heat_comfort", HeatEntry(d.weather)),
     ("water_supply", if d.pctCapacity.Some? then ScoreEntry(Some(WaterScore(d.pctCapacity.value)), d.pctCapacity, Shown(d.pctCapacity.value)) else Missing),
     ("uv_exposure", if d.uvIndex.Some? then ScoreEntry(Some(UvScore(d.uvIndex.value)), d.uvIndex, Shown(d.uvIndex.value)) else Missing),
     ("drought", if d.drought.Some? then ScoreEntry(Some(DroughtScore(d.drought.value.0)), Some(d.drought.value.0), Category(d.drought.value.1)) else Missing),
     ("alerts", if d.alerts.Some? then ScoreEntry(Some(AlertScore(d.alerts.value)), Some(d.alerts.value as real), Shown(d.alerts.value as real)) else Missing)]
  }

  /** The economic indicators under their weight-table keys, each scored
      by its curve from the fetched value. */
  function EconEntries(d: EconData): (es: seq<(string, ScoreEntry)>)
    ensures |es| == 7
    ensures forall i :: 0 <= i < 7 ==> es[i].0 == EconWeights[i].0 && WellFormed(es[i].1)
    ensures d.unemployment.Some? ==>
      es[0].1 == ScoreEntry(Some(UnemploymentScore(d.unemployment.value)), d.unemployment, Shown(d.unemployment.value))
    ensures es[1].1 == JobGrowthEntry(d.yoyChange)
    ensures d.leisureJobsK.Some? ==>
      es[2].1 == ScoreEntry(Some(HospitalityScore(d.leisureJobsK.value)), d.leisureJobsK, Shown(d.leisureJobsK.value))
    ensures d.cpi.Some? ==>
      es[3].1 == ScoreEntry(Some(CpiScore(d.cpi.value)), d.cpi, Shown(d.cpi.value))
    ensures d.homeValue.Some? ==>
      es[4].1 == ScoreEntry(Some(HousingScore(d.homeValue.value)), d.homeValue, Shown(d.homeValue.value))
    ensures d.gasPrice.Some? ==>
      es[5].1 == ScoreEntry(Some(GasScore(d.gasPrice.value)), d.gasPrice, Shown(d.gasPrice.value))
    ensures d.mortgageRate.Some? ==>
      es[6].1 == ScoreEntry(Some(MortgageScore(d.mortgageRate.value)), d.mortgageRate, Shown(d.mortgageRate.value))
  {
    [("unemployment", if d.unemployment.Some? then ScoreEntry(Some(UnemploymentScore(d.unemployment.value)), d.unemployment, Shown(d.unemployment.value)) else Missing),
     ("job_growth", JobGrowthEntry(d.yoyChange)),
     ("hospitality_strength", if d.leisureJobsK.Some? then ScoreEntry(Some(HospitalityScore(d.leisureJobsK.value)), d.leisureJobsK, Shown(d.leisureJobsK.value)) else Missing),
     ("cost_of_living", if d.cpi.Some? then ScoreEntry(Some(CpiScore(d.cpi.value)), d.cpi, Shown(d.cpi.value)) else Missing),
     ("housing", if d.homeValue.Some? then ScoreEntry(Some(HousingScore(d.homeValue.value)), d.homeValue, Shown(d.homeValue.value)) else Missing),
     ("gas_prices", if d.gasPrice.Some? then ScoreEntry(Some(GasScore(d.gasPrice.value)), d.gasPrice, Shown(d.gasPrice.value)) else Missing),
     ("mortgage", if d.mortgageRate.Some? then ScoreEntry(Some(MortgageScore(d.mortgageRate.value)), d.mortgageRate, Shown(d.mortgageRate.value)) else Missing)]
  }

  /** An indicator whose raw value is missing is unscored and labelled
      "unavailable". */
  lemma MissingIsUnavailable(d: EnvData, e: EconData)
    ensures d.aqi.None? ==> EnvEntries(d)[0].1 == Missing
    ensures (d.weather.WeatherError? || d.weather.temperature == []) ==> EnvEntries(d)[1].1 == Missing
    ensures d.pctCapacity.None? ==> EnvEntries(d)[2].1 == Missing
    ensures d.uvIndex.None? ==> EnvEntries(d)[3].1 == Missing
    ensures d.drought.None? ==> EnvEntries(d)[4].1 == Missing
    ensures d.alerts.None? ==> EnvEntries(d)[5].1 == Missing
    ensures e.unemployment.None? ==> EconEntries(e)[0].1 == Missing
    ensures e.yoyChange == [] ==> EconEntries(e)[1].1 == Missing
    ensures e.leisureJobsK.None? ==> EconEntries(e)[2].1 == Missing
    ensures e.cpi.None? ==> EconEntries(e)[3].1 == Missing
    ensures e.homeValue.None? ==> EconEntries(e)[4].1 == Missing
    ensures e.gasPrice.None? ==> EconEntries(e)[5].1 == Missing
    ensures e.mortgageRate.None? ==> EconEntries(e)[6].1 == Missing
  {
  }

  // ---------------------------------------------------------------------
  // Weighted average

  /** The score stored under `key`, if any (the first entry with that key). */
  function Lookup(entries: seq<(string, ScoreEntry)>, key: string): Option<real> {
    if entries == [] then None
    else if entries[0].0 == key then entries[0].1.score
    else Lookup(entries[1..], key)
  }

  lemma LookupWellFormed(entries: seq<(string, ScoreEntry)>, key: string)
    requires forall i :: 0 <= i < |entries| ==> WellFormed(entries[i].1)
    ensures Lookup(entries, key).Some? ==> 0.0 <= Lookup(entries, key).value <= 100.0
  {
  }

  /** Sum of the weights whose indicator has a score. */
  function PresentWeight(entries: seq<(string, ScoreEntry)>, weights: seq<(string, real)>): real {
    if weights == [] then 0.0
    else
      var (key, w) := weights[|weights| - 1];
      PresentWeight(entries, weights[..|weights| - 1]) + (if Lookup(entries, key).Some? then w else 0.0)
  }

  /** Weighted sum of the present scores. */
  function WeightedSum(entries: seq<(string, ScoreEntry)>, weights: seq<(string, real)>): real {
    if weights == [] then 0.0
    else
      var (key, w) := weights[|weights| - 1];
      var s := Lookup(entries, key);
      WeightedSum(entries, weights[..|weights| - 1]) + (if s.Some? then s.value * w else 0.0)
  }

  /** The weighted average over the present indicators; `None` when no
      weight is present. */
  function WeightedAverage(entries: seq<(string, ScoreEntry)>, weights: seq<(string, real)>): Option<real> {
    var tw := PresentWeight(entries, weights);
    if tw == 0.0 then None else Some(WeightedSum(entries, weights) / tw)
  }

  predicate PositiveWeights(weights: seq<(string, real)>) {
    forall i :: 0 <= i < |weights| ==> weights[i].1 > 0.0
  }

  /** Some weighted indicator has a score. */
  predicate AnyPresent(entries: seq<(string, ScoreEntry)>, weights: seq<(string, real)>) {
    exists i :: 0 <= i < |weights| && Lookup(entries, weights[i].0).Some?
  }

  lemma {:induction false} PresentWeightPositive(entries: seq<(string, ScoreEntry)>, weights: seq<(string, real)>)
    requires PositiveWeights(weights)
    ensures PresentWeight(entries, weights) >= 0.0
    ensures PresentWeight(entries, weights) > 0.0 <==> AnyPresent(entries, weights)
  {
    if weights != [] {
      var init := weights[..|weights| - 1];
      var last := |init|;
      PresentWeightPositive(entries, init);
      if AnyPresent(entries, init) {
        var i :| 0 <= i < |init| && Lookup(entries, init[i].0).Some?;
        assert weights[i] == init[i];
      }
      if Lookup(entries, weights[last].0).Some? {
        assert AnyPresent(entries, weights);
      } else if AnyPresent(entries, weights) {
        var i :| 0 <= i < |weights| && Lookup(entries, weights[i].0).Some?;
        assert i != last;
        assert init[i] == weights[i];
      }
    }
  }

  /** With positive weights, the average is missing exactly when every
      weighted indicator is missing. */
  lemma AverageMissingIff(entries: seq<(string, ScoreEntry)>, weights: seq<(string, real)>)
    requires PositiveWeights(weights)
    ensures WeightedAverage(entries, weights).None? <==> !AnyPresent(entries, weights)
  {
    PresentWeightPositive(entries, weights);
  }

  lemma {:induction false} WeightedSumLower(entries: seq<(string, ScoreEntry)>, weights: seq<(string, real)>, lo: real)
    requires forall i :: 0 <= i < |weights| ==> weights[i].1 >= 0.0
    requires forall i :: 0 <= i < |weights| && Lookup(entries, weights[i].0).Some? ==>
      lo <= Lookup(entries, weights[i].0).value
    ensures lo * PresentWeight(entries, weights) <= WeightedSum(entries, weights)
  {
    if weights != [] {
      var n := |weights| - 1;
      var init := weights[..n];
      assert forall i :: 0 <= i < |init| ==> init[i] == weights[i];
      WeightedSumLower(entries, init, lo);
      var s := Lookup(entries, weights[n].0);
      if s.Some? {
        AccumulateLower(lo, PresentWeight(entries, init), WeightedSum(entries, init), s.value, weights[n].1);
      }
    }
  }

  lemma {:induction false} WeightedSumUpper(entries: seq<(string, ScoreEntry)>, weights: seq<(string, real)>, hi: real)
    requires forall i :: 0 <= i < |weights| ==> weights[i].1 >= 0.0
    requires forall i :: 0 <= i < |weights| && Lookup(entries, weights[i].0).Some? ==>
      Lookup(entries, weights[i].0).value <= hi
    ensures WeightedSum(entries, weights) <= hi * PresentWeight(entries, weights)
  {
    if weights != [] {
      var n := |weights| - 1;
      var init := weights[..n];
      assert forall i :: 0 <= i < |init| ==> init[i] == weights[i];
      WeightedSumUpper(entries, init, hi);
      var s := Lookup(entries, weights[n].0);
      if s.Some? {
        AccumulateUpper(hi, PresentWeight(entries, init), WeightedSum(entries, init), s.value, weights[n].1);
      }
    }
  }

  /** Adding one weighted score keeps the running sum above the bound. */
  lemma AccumulateLower(lo: real, pw: real, ws: real, x: real, w: real)
    requires lo * pw <= ws && lo <= x && w >= 0.0
    ensures lo * (pw + w) <= ws + x * w
  {
    assert lo * w <= x * w;
  }

  /** Adding one weighted score keeps the running sum below the bound. */
  lemma AccumulateUpper(hi: real, pw: real, ws: real, x: real, w: real)
    requires ws <= hi * pw && x <= hi && w >= 0.0
    ensures ws + x * w <= hi * (pw + w)
  {
    assert x * w <= hi * w;
  }

  /** The weighted average is a convex combination: it lies between the
      smallest and the largest present score. */
  lemma AverageWithinBounds(entries: seq<(string, ScoreEntry)>, weights: seq<(string, real)>, lo: real, hi: real)
    requires forall i :: 0 <= i < |weights| ==> weights[i].1 >= 0.0
    requires forall i :: 0 <= i < |weights| && Lookup(entries, weights[i].0).Some? ==>
      lo <= Lookup(entries, weights[i].0).value <= hi
    ensures WeightedAverage(entries, weights).Some? ==>
      lo <= WeightedAverage(entries, weights).value <= hi
  {
    WeightedSumLower(entries, weights, lo);
    WeightedSumUpper(entries, weights, hi);
    var tw := PresentWeight(entries, weights);
    var ts := WeightedSum(entries, weights);
    if tw != 0.0 {
      PresentWeightNonNegative(entries, weights);
      assert tw > 0.0;
      DivideBounds(ts, tw, lo, hi);
    }
  }

  lemma {:induction false} PresentWeightNonNegative(entries: seq<(string, ScoreEntry)>, weights: seq<(string, real)>)
    requires forall i :: 0 <= i < |weights| ==> weights[i].1 >= 0.0
    ensures PresentWeight(entries, weights) >= 0.0
  {
    if weights != [] {
      var init := weights[..|weights| - 1];
      assert forall i :: 0 <= i < |init| ==> init[i] == weights[i];
      PresentWeightNonNegative(entries, init);
    }
  }

  lemma DivideBounds(ts: real, tw: real, lo: real, hi: real)
    requires tw > 0.0 && lo * tw <= ts <= hi * tw
    ensures lo <= ts / tw <= hi
  {
  }

  /** `_weighted_avg`: accumulate the present weights and weighted scores
      in table order. */
  method WeightedAvg(entries: seq<(string, ScoreEntry)>, weights: seq<(string, real)>) returns (r: Option<real>)
    ensures r == WeightedAverage(entries, weights)
  {
    var totalW := 0.0;
    var totalS := 0.0;
    var i := 0;
    while i < |weights|
      invariant 0 <= i <= |weights|
      invariant totalW == PresentWeight(entries, weights[..i])
      invariant totalS == WeightedSum(entries, weights[..i])
    {
      var (key, w) := weights[i];
      var s := Lookup(entries, key);
      assert weights[..i + 1][..i] == weights[..i];
      if s.Some? {
        totalW := totalW + w;
        totalS := totalS + s.value * w;
      }
      i := i + 1;
    }
    assert weights[..i] == weights;
    if totalW == 0.0 {
      return None;
    }
    return Some(totalS / totalW);
  }

  /** The environmental score sheet. */
  function ScoreEnvironmental(d: EnvData): (sheet: ScoreSheet)
    ensures sheet.entries == EnvEntries(d)
    ensures sheet.overall == WeightedAverage(EnvEntries(d), EnvWeights)
    ensures sheet.overall.None? <==> !AnyPresent(EnvEntries(d), EnvWeights)
    ensures sheet.overall.Some? ==> 0.0 <= sheet.overall.value <= 100.0
  {
    var es := EnvEntries(d);
    WeightTablesSumToOne();
    AverageMissingIff(es, EnvWeights);
    WellFormedEntriesBound(es, EnvWeights);
    ScoreSheet(es, WeightedAverage(es, EnvWeights))
  }

  /** The economic score sheet. */
  function ScoreEconomic(d: EconData): (sheet: ScoreSheet)
    ensures sheet.entries == EconEntries(d)
    ensures sheet.overall == WeightedAverage(EconEntries(d), EconWeights)
    ensures sheet.overall.None? <==> !AnyPresent(EconEntries(d), EconWeights)
    ensures sheet.overall.Some? ==> 0.0 <= sheet.overall.value <= 100.0
  {
    var es := EconEntries(d);
    WeightTablesSumToOne();
    AverageMissingIff(es, EconWeights);
    WellFormedEntriesBound(es, EconWeights);
    ScoreSheet(es, WeightedAverage(es, EconWeights))
  }

  lemma WellFormedEntriesBound(es: seq<(string, ScoreEntry)>, weights: seq<(string, real)>)
    requires forall i :: 0 <= i < |es| ==> WellFormed(es[i].1)
    requires PositiveWeights(weights)
    ensures WeightedAverage(es, weights).Some? ==> 0.0 <= WeightedAverage(es, weights).value <= 100.0
  {
    forall i | 0 <= i < |weights| && Lookup(es, weights[i].0).Some?
      ensures 0.0 <= Lookup(es, weights[i].0).value <= 100.0
    {
      LookupWellFormed(es, weights[i].0);
    }
    AverageWithinBounds(es, weights, 0.0, 100.0);
  }

  /** `composite`: the mean of the two groups when both exist, otherwise
      Python's `env or econ`, under which an environmental 0.0 counts as
      missing. */
  function Composite(env: Option<real>, econ: Option<real>): (r: Option<real>)
    ensures env.Some? && econ.Some? ==> r == Some(0.5 * env.value + 0.5 * econ.value)
    ensures env.None? && econ.None? ==> r.None?
    ensures env.Some? && econ.Some? && env.value <= econ.value ==> env.value <= r.value <= econ.value
    ensures env.Some? && econ.Some? && econ.value <= env.value ==> econ.value <= r.value <= env.value
    ensures env.Some? && env.value != 0.0 && econ.None? ==> r == env
    ensures (env.None? || env == Some(0.0)) && econ.None? ==> r.None?
    ensures env.None? ==> r == econ
  {
    if env.Some? && econ.Some? then Some(0.5 * env.value + 0.5 * econ.value)
    else if env.Some? && env.value != 0.0 then env
    else econ
  }

  /** The `or` fallback: an environmental score of exactly 0.0 with no
      economic score gives no composite at all. */
  lemma CompositeZeroIsMissing()
    ensures Composite(Some(0.0), None) == None
  {
  }
}
