/** The economic fetcher of the Vegas score: the BLS request's year range
    and its two refusals, the latest-entry choice shared by every BLS
    indicator, the same-period-last-year comparison for total employment,
    the FRED key check, and the `fetch_all` table. Replies and the current
    year are parameters. */
module Economic {
  import opened Common
  import opened SourceFetch

  // ---------------------------------------------------------------------
  // BLS

  const UnemploymentSeries: string := "LAUCN320030000000003"
  const TotalNonfarmSeries: string := "SMU32298200000000001"
  const LeisureSeries: string := "SMU32298207000000001"
  const ConstructionSeries: string := "SMU32298202000000001"
  const CpiSeries: string := "CUURS400SA0"

  const BlsSucceeded: string := "REQUEST_SUCCEEDED"

  /** The years asked for: the given ones, else from two years before the
      current year up to the current year (publication lag). */
  function BlsYears(currentYear: int, startYear: Option<string>, endYear: Option<string>): (years: (string, string))
    ensures startYear.Some? ==> years.0 == startYear.value
    ensures endYear.Some? ==> years.1 == endYear.value
    ensures startYear.None? ==> ParseInt(years.0) == Some(currentYear - 2)
    ensures endYear.None? ==> ParseInt(years.1) == Some(currentYear)
  {
    IntRoundTrip(currentYear - 2);
    IntRoundTrip(currentYear);
    (if startYear.Some? then startYear.value else IntToString(currentYear - 2),
     if endYear.Some? then endYear.value else IntToString(currentYear))
  }

  function BlsErrorMessage(message: Json): string {
    "BLS error: " + StrOf(message)
  }

  function NoBlsDataMessage(seriesId: string, years: (string, string)): string {
    "No BLS data for " + seriesId + " in " + years.0 + "-" + years.1
  }

  /** `resp["Results"]["series"][0]["data"]`. */
  function SeriesData(resp: Json): (r: Result<Json, string>)
    ensures r.Err? ==> r.error == Malformed
    ensures r.Ok? <==> (resp.JObj? && "Results" in resp.fields && resp.fields["Results"].JObj? &&
                        "series" in resp.fields["Results"].fields && SeriesFirst(resp.fields["Results"].fields["series"]))
    ensures r.Ok? ==> r.value == resp.fields["Results"].fields["series"].items[0].fields["data"]
  {
    match Field(resp, "Results")
    case Err(m) => Err(m)
    case Ok(results) =>
      match Field(results, "series")
      case Err(m) => Err(m)
      case Ok(series) =>
        match At(series, 0)
        case Err(m) => Err(m)
        case Ok(first) => Field(first, "data")
  }

  /** A list of series whose first is an object with "data". */
  predicate SeriesFirst(series: Json) {
    series.JArr? && series.items != [] && series.items[0].JObj? && "data" in series.items[0].fields
  }

  /** A reply whose status is not REQUEST_SUCCEEDED. */
  predicate Refused(reply: Reply) {
    reply.Ok? && reply.value.JObj? && "status" in reply.value.fields &&
    reply.value.fields["status"] != JStr(BlsSucceeded)
  }

  predicate Succeeded(reply: Reply) {
    reply.Ok? && reply.value.JObj? && "status" in reply.value.fields &&
    reply.value.fields["status"] == JStr(BlsSucceeded)
  }

  /** `resp.get("message", resp["status"])`. */
  function RefusalText(resp: map<string, Json>): Json
    requires "status" in resp
  {
    if "message" in resp then resp["message"] else resp["status"]
  }

  /** `_bls_fetch`: a status other than REQUEST_SUCCEEDED raises "BLS
      error: " with the message (or the status), and an empty series
      raises "No BLS data for <id> in <start>-<end>". */
  function BlsFetch(seriesId: string, years: (string, string), reply: Reply): (r: Result<Json, string>)
    ensures reply.Err? ==> r == Err(reply.error)
    ensures Refused(reply) ==> r == Err(BlsErrorMessage(RefusalText(reply.value.fields)))
    ensures Succeeded(reply) && SeriesData(reply.value).Ok? && !IsTruthy(SeriesData(reply.value).value) ==>
      r == Err(NoBlsDataMessage(seriesId, years))
    ensures r.Ok? ==> Succeeded(reply) && SeriesData(reply.value) == Ok(r.value) && IsTruthy(r.value)
    ensures Succeeded(reply) && SeriesData(reply.value).Ok? && IsTruthy(SeriesData(reply.value).value) ==>
      r == Ok(SeriesData(reply.value).value)
    ensures Succeeded(reply) && SeriesData(reply.value).Err? ==> r == Err(Malformed)
    ensures reply.Ok? && !Refused(reply) && !Succeeded(reply) ==> r == Err(Malformed)
  {
    match reply
    case Err(m) => Err(m)
    case Ok(resp) =>
      match Field(resp, "status")
      case Err(m) => Err(m)
      case Ok(status) =>
        if status != JStr(BlsSucceeded) then
          Err(BlsErrorMessage(RefusalText(resp.fields)))
        else
          match SeriesData(resp)
          case Err(m) => Err(m)
          case Ok(data) =>
            if !IsTruthy(data) then Err(NoBlsDataMessage(seriesId, years)) else Ok(data)
  }

  /** What every BLS indicator reads from its latest entry. */
  datatype LatestValue = LatestValue(value: real, period: string)

  /** An entry whose value reads as a float and which has a period name
      and a year. */
  predicate ReadableLatest(latest: Json) {
    latest.JObj? && "value" in latest.fields && ToFloat(latest.fields["value"]).Some? &&
    "periodName" in latest.fields && "year" in latest.fields
  }

  /** `latest = data[0]`: the value as a float and the period as
      "<periodName> <year>". */
  function LatestOf(data: Json): (r: Result<LatestValue, string>)
    ensures r.Ok? <==> data.JArr? && data.items != [] && ReadableLatest(data.items[0])
    ensures r.Err? ==> r.error == Malformed
    ensures r.Ok? ==> data.JArr? && data.items != [] && data.items[0].JObj?
    ensures r.Ok? ==> "value" in data.items[0].fields && ToFloat(data.items[0].fields["value"]) == Some(r.value.value)
    ensures r.Ok? ==> "periodName" in data.items[0].fields && "year" in data.items[0].fields
    ensures r.Ok? ==> r.value.period == StrOf(data.items[0].fields["periodName"]) + " " + StrOf(data.items[0].fields["year"])
  {
    match At(data, 0)
    case Err(m) => Err(m)
    case Ok(latest) =>
      match Field(latest, "value")
      case Err(m) => Err(m)
      case Ok(v) =>
        match ToFloat(v)
        case None => Err(Malformed)
        case Some(x) =>
          match Field(latest, "periodName")
          case Err(m) => Err(m)
          case Ok(name) =>
            match Field(latest, "year")
            case Err(m) => Err(m)
            case Ok(year) => Ok(LatestValue(x, StrOf(name) + " " + StrOf(year)))
  }

  /** An entry of the same period one year before; `period` is the
      latest entry's, absent when it has none. */
  predicate IsPriorPeriod(d: Json, priorYear: string, period: Option<Json>) {
    d.JObj? && "year" in d.fields && d.fields["year"] == JStr(priorYear) &&
    "period" in d.fields && period.Some? && d.fields["period"] == period.value
  }

  /** An entry the comprehension can test without raising: it has a year,
      and when the year matches, both periods exist. */
  predicate Testable(d: Json, priorYear: string, period: Option<Json>) {
    d.JObj? && "year" in d.fields &&
    (d.fields["year"] == JStr(priorYear) ==> "period" in d.fields && period.Some?)
  }

  /** Entry `k` is the first of the same period one year before. */
  predicate FirstPrior(items: seq<Json>, priorYear: string, period: Option<Json>, k: int) {
    0 <= k < |items| && IsPriorPeriod(items[k], priorYear, period) &&
    forall i :: 0 <= i < k ==> !IsPriorPeriod(items[i], priorYear, period)
  }

  /** The comprehension `[d for d in data if d["year"] == prior and
      d["period"] == latest["period"]]`, which reads the latest period only
      for an entry of the right year. */
  function PriorEntries(items: seq<Json>, priorYear: string, period: Option<Json>): (r: Result<seq<Json>, string>)
    ensures r.Ok? <==> forall i :: 0 <= i < |items| ==> Testable(items[i], priorYear, period)
    ensures r.Err? ==> r.error == Malformed
    ensures r.Ok? ==> forall d :: d in r.value ==> d in items && IsPriorPeriod(d, priorYear, period)
    ensures r.Ok? ==> (r.value == [] <==> forall i :: 0 <= i < |items| ==> !IsPriorPeriod(items[i], priorYear, period))
    ensures r.Ok? && r.value != [] ==> exists k :: FirstPrior(items, priorYear, period, k) && r.value[0] == items[k]
  {
    if items == [] then Ok([])
    else
      var d := items[0];
      var rest := PriorEntries(items[1..], priorYear, period);
      assert forall k :: FirstPrior(items[1..], priorYear, period, k) && !IsPriorPeriod(d, priorYear, period) ==>
        FirstPrior(items, priorYear, period, k + 1);
      assert IsPriorPeriod(d, priorYear, period) ==> FirstPrior(items, priorYear, period, 0);
      match Field(d, "year")
      case Err(m) => Err(m)
      case Ok(year) =>
        if year == JStr(priorYear) then
          match Field(d, "period")
          case Err(m) => Err(m)
          case Ok(p) =>
            if period.None? then Err(Malformed)
            else if p == period.value then
              match rest
              case Err(m) => Err(m)
              case Ok(ps) => Ok([d] + ps)
            else rest
        else rest
  }

  /** Total nonfarm employment: the latest value and period, and the
      change from the same period a year before (`None` when there is no
      such entry, printed as an empty string). */
  datatype TotalEmploymentReading = TotalEmploymentReading(jobsK: real, period: string, yoyChange: Option<real>)

  /** The year before the latest entry's, as BLS writes years. */
  function PriorYearOf(latest: Json): (r: Result<string, string>)
    ensures r.Ok? <==> latest.JObj? && "year" in latest.fields && ToInt(latest.fields["year"]).Some?
    ensures r.Err? ==> r.error == Malformed
    ensures r.Ok? ==> ParseInt(r.value) == Some(ToInt(latest.fields["year"]).value - 1)
  {
    match Field(latest, "year")
    case Err(m) => Err(m)
    case Ok(year) =>
      match ToInt(year)
      case None => Err(Malformed)
      case Some(y) =>
        IntRoundTrip(y - 1);
        Ok(IntToString(y - 1))
  }

  /** The latest entry's period, when it has one. */
  function PeriodOf(latest: Json): Option<Json> {
    if latest.JObj? && "period" in latest.fields then Some(latest.fields["period"]) else None
  }

  /** No entry of the latest period one year before. */
  predicate NoPrior(items: seq<Json>)
    requires items != [] && PriorYearOf(items[0]).Ok?
  {
    forall i :: 0 <= i < |items| ==> !IsPriorPeriod(items[i], PriorYearOf(items[0]).value, PeriodOf(items[0]))
  }

  /** `change` is the latest value minus that of entry `k`, the first of
      the latest period one year before. */
  predicate ComparedWith(items: seq<Json>, k: int, change: real)
    requires items != [] && PriorYearOf(items[0]).Ok?
  {
    FirstPrior(items, PriorYearOf(items[0]).value, PeriodOf(items[0]), k) &&
    "value" in items[0].fields && "value" in items[k].fields &&
    ToFloat(items[0].fields["value"]).Some? && ToFloat(items[k].fields["value"]).Some? &&
    change == ToFloat(items[0].fields["value"]).value - ToFloat(items[k].fields["value"]).value
  }

  /** An entry whose "value" reads as a float. */
  predicate ReadableValue(d: Json) {
    d.JObj? && "value" in d.fields && ToFloat(d.fields["value"]).Some?
  }

  /** The series reads through the comprehension, and when there is a
      first entry of the latest period one year before, both its value and
      the latest's read as floats. */
  ghost predicate Comparable(items: seq<Json>)
    requires items != [] && PriorYearOf(items[0]).Ok?
  {
    var prior := PriorYearOf(items[0]).value;
    (forall i :: 0 <= i < |items| ==> Testable(items[i], prior, PeriodOf(items[0]))) &&
    forall k :: FirstPrior(items, prior, PeriodOf(items[0]), k) ==> ReadableValue(items[0]) && ReadableValue(items[k])
  }

  /** There is at most one first entry of a period. */
  lemma FirstPriorUnique(items: seq<Json>, priorYear: string, period: Option<Json>, k: int)
    requires FirstPrior(items, priorYear, period, k)
    ensures forall j :: FirstPrior(items, priorYear, period, j) ==> j == k
  {
  }

  /** `float(latest["value"]) - float(earlier["value"])`. */
  function ValueChange(latest: Json, earlier: Json): (r: Result<real, string>)
    ensures r.Ok? <==> ReadableValue(latest) && ReadableValue(earlier)
    ensures r.Err? ==> r.error == Malformed
    ensures r.Ok? ==> latest.JObj? && earlier.JObj? && "value" in latest.fields && "value" in earlier.fields
    ensures r.Ok? ==> ToFloat(latest.fields["value"]).Some? && ToFloat(earlier.fields["value"]).Some?
    ensures r.Ok? ==> r.value == ToFloat(latest.fields["value"]).value - ToFloat(earlier.fields["value"]).value
  {
    match Field(latest, "value")
    case Err(m) => Err(m)
    case Ok(a) =>
      match Field(earlier, "value")
      case Err(m) => Err(m)
      case Ok(b) =>
        match ToFloat(a)
        case None => Err(Malformed)
        case Some(x) =>
          match ToFloat(b)
          case None => Err(Malformed)
          case Some(y) => Ok(x - y)
  }

  /** The YoY part of `_fetch_total_employment` for a non-empty series:
      the change from the first entry of the same period one year before
      the latest, or `None` exactly when there is no such entry. */
  function YoyChange(items: seq<Json>): (r: Result<Option<real>, string>)
    requires items != []
    ensures r.Err? ==> r.error == Malformed
    ensures r.Ok? ==> PriorYearOf(items[0]).Ok?
    ensures r.Ok? ==> (r.value.None? <==> NoPrior(items))
    ensures r.Ok? && r.value.Some? ==> exists k :: ComparedWith(items, k, r.value.value)
  {
    var latest := items[0];
    match PriorYearOf(latest)
    case Err(m) => Err(m)
    case Ok(prior) =>
      match PriorEntries(items, prior, PeriodOf(latest))
      case Err(m) => Err(m)
      case Ok(prev) =>
        if prev == [] then Ok(None)
        else
          var k :| FirstPrior(items, prior, PeriodOf(latest), k) && prev[0] == items[k];
          match ValueChange(latest, prev[0])
          case Err(m) => Err(m)
          case Ok(c) =>
            assert ComparedWith(items, k, c);
            Ok(Some(c))
  }

  /** `YoyChange` succeeds exactly on a comparable series. */
  lemma YoyChangeReads(items: seq<Json>)
    requires items != []
    ensures YoyChange(items).Ok? <==> PriorYearOf(items[0]).Ok? && Comparable(items)
  {
    var latest := items[0];
    if PriorYearOf(latest).Ok? {
      var prior := PriorYearOf(latest).value;
      var prev := PriorEntries(items, prior, PeriodOf(latest));
      if prev.Ok? && prev.value != [] {
        var k :| FirstPrior(items, prior, PeriodOf(latest), k) && prev.value[0] == items[k];
        FirstPriorUnique(items, prior, PeriodOf(latest), k);
      }
    }
  }

  /** The `yoy_change` text: "" without a prior-year entry, otherwise
      `f"{change:+.1f}K YoY"`: a sign, the whole thousands, a point and the
      tenths. The change enters already rounded, as a whole number of
      tenths. */
  function YoyText(tenths: Option<int>): (text: string)
    ensures tenths.None? <==> text == []
    ensures tenths.Some? ==> text[0] == (if tenths.value < 0 then '-' else '+')
  {
    match tenths
    case None => ""
    case Some(t) =>
      var m: nat := if t < 0 then -t else t;
      (if t < 0 then "-" else "+") + NatToString(m / 10) + "." + NatToString(m % 10) + "K YoY"
  }

  // ---------------------------------------------------------------------
  // FRED

  const FredKeyMessage: string := "Set FRED_API_KEY env var (free at fred.stlouisfed.org)"
  const NoFredData: string := "No FRED data"

  datatype MortgageReading = MortgageReading(rate: real, date: Json)

  /** `body.get("observations", [])`. */
  function Observations(body: map<string, Json>): Json {
    if "observations" in body then body["observations"] else JArr([])
  }

  /** An observation whose value reads as a float and which has a date. */
  predicate ReadableObservation(o: Json) {
    o.JObj? && "value" in o.fields && ToFloat(o.fields["value"]).Some? && "date" in o.fields
  }

  /** `_fetch_mortgage_rate`: without a key nothing is requested and the
      call raises; otherwise the first observation, or "No FRED data". */
  function FetchMortgage(fredKey: string, reply: Reply): (r: Result<MortgageReading, string>)
    ensures fredKey == [] ==> r == Err(FredKeyMessage)
    ensures fredKey != [] && reply.Err? ==> r == Err(reply.error)
    ensures fredKey != [] && reply.Ok? && !reply.value.JObj? ==> r == Err(Malformed)
    ensures fredKey != [] && reply.Ok? && reply.value.JObj? && !IsTruthy(Observations(reply.value.fields)) ==>
      r == Err(NoFredData)
    ensures r.Ok? <==> (fredKey != [] && reply.Ok? && reply.value.JObj? &&
                        IsTruthy(Observations(reply.value.fields)) && Observations(reply.value.fields).JArr? &&
                        ReadableObservation(Observations(reply.value.fields).items[0]))
    ensures r.Ok? ==> (var first := Observations(reply.value.fields).items[0];
      r.value == MortgageReading(ToFloat(first.fields["value"]).value, first.fields["date"]))
    ensures r.Ok? ==> fredKey != [] && reply.Ok? && reply.value.JObj?
    ensures r.Ok? ==> "observations" in reply.value.fields && reply.value.fields["observations"].JArr?
    ensures r.Ok? ==> (var obs := reply.value.fields["observations"].items;
      obs != [] && obs[0].JObj? && "value" in obs[0].fields && ToFloat(obs[0].fields["value"]) == Some(r.value.rate))
  {
    if fredKey == [] then Err(FredKeyMessage)
    else
      match reply
      case Err(m) => Err(m)
      case Ok(body) =>
        match GetOr(body, "observations", JArr([]))
        case Err(m) => Err(m)
        case Ok(obs) =>
          if !IsTruthy(obs) then Err(NoFredData)
          else
            match At(obs, 0)
            case Err(m) => Err(m)
            case Ok(first) =>
              match Field(first, "value")
              case Err(m) => Err(m)
              case Ok(v) =>
                match ToFloat(v)
                case None => Err(Malformed)
                case Some(rate) =>
                  match Field(first, "date")
                  case Err(m) => Err(m)
                  case Ok(date) => Ok(MortgageReading(rate, date))
  }

  /** A reply without observations, or with an empty list of them, is
      "No FRED data". */
  lemma NoObservations(fredKey: string, body: map<string, Json>)
    requires fredKey != [] && ("observations" !in body || body["observations"] == JArr([]))
    ensures FetchMortgage(fredKey, Ok(JObj(body))) == Err(NoFredData)
  {
  }

  // ---------------------------------------------------------------------
  // The indicators and fetch_all

  /** A stored reading. Population, housing and gas prices (Census and EIA)
      are not part of this model: their readings arrive as decoded values. */
  datatype Reading =
    | Unemployment(rate: real, period: string, series: string)
    | TotalEmployment(total: TotalEmploymentReading)
    | Employment(jobsK: real, employmentPeriod: string)
    | Cpi(index: real, cpiPeriod: string, region: string)
    | Population(population: Json)
    | Housing(housing: Json)
    | GasPrices(gas: Json)
    | MortgageRate(mortgage: MortgageReading)

  /** A BLS indicator: the series, then its latest entry. */
  function BlsIndicator(seriesId: string, currentYear: int, reply: Reply, make: LatestValue -> Reading)
    : (r: Result<Reading, string>)
    ensures r.Ok? ==> var data := BlsFetch(seriesId, BlsYears(currentYear, None, None), reply);
      data.Ok? && LatestOf(data.value).Ok? && r.value == make(LatestOf(data.value).value)
    ensures var data := BlsFetch(seriesId, BlsYears(currentYear, None, None), reply);
      r.Ok? <==> data.Ok? && LatestOf(data.value).Ok?
    ensures var data := BlsFetch(seriesId, BlsYears(currentYear, None, None), reply);
      data.Err? ==> r == Err(data.error)
    ensures var data := BlsFetch(seriesId, BlsYears(currentYear, None, None), reply);
      data.Ok? && LatestOf(data.value).Err? ==> r == Err(Malformed)
  {
    match BlsFetch(seriesId, BlsYears(currentYear, None, None), reply)
    case Err(m) => Err(m)
    case Ok(data) =>
      match LatestOf(data)
      case Err(m) => Err(m)
      case Ok(latest) => Ok(make(latest))
  }

  /** `_fetch_total_employment`: the latest entry and its YoY change. */
  function TotalEmploymentOf(currentYear: int, reply: Reply): (r: Result<Reading, string>)
    ensures r.Ok? ==> var data := BlsFetch(TotalNonfarmSeries, BlsYears(currentYear, None, None), reply);
      data.Ok? && data.value.JArr? && data.value.items != [] && LatestOf(data.value).Ok? &&
      YoyChange(data.value.items).Ok? &&
      r.value == TotalEmployment(TotalEmploymentReading(LatestOf(data.value).value.value,
                                                        LatestOf(data.value).value.period,
                                                        YoyChange(data.value.items).value))
    ensures var data := BlsFetch(TotalNonfarmSeries, BlsYears(currentYear, None, None), reply);
      r.Ok? <==> data.Ok? && LatestOf(data.value).Ok? && YoyChange(data.value.items).Ok?
    ensures var data := BlsFetch(TotalNonfarmSeries, BlsYears(currentYear, None, None), reply);
      data.Err? ==> r == Err(data.error)
    ensures var data := BlsFetch(TotalNonfarmSeries, BlsYears(currentYear, None, None), reply);
      data.Ok? && !(LatestOf(data.value).Ok? && YoyChange(data.value.items).Ok?) ==> r == Err(Malformed)
  {
    match BlsFetch(TotalNonfarmSeries, BlsYears(currentYear, None, None), reply)
    case Err(m) => Err(m)
    case Ok(data) =>
      match LatestOf(data)
      case Err(m) => Err(m)
      case Ok(latest) =>
        match YoyChange(data.items)
        case Err(m) => Err(m)
        case Ok(yoy) => Ok(TotalEmployment(TotalEmploymentReading(latest.value, latest.period, yoy)))
  }

  /** A REQUEST_SUCCEEDED reply whose one series carries `items`. */
  function BlsReply(items: seq<Json>): Json {
    JObj(map["status" := JStr(BlsSucceeded),
             "Results" := JObj(map["series" := JArr([JObj(map["data" := JArr(items)])])])])
  }

  /** A successful reply with data gives that data. */
  lemma BlsSucceedsOnData(seriesId: string, years: (string, string), items: seq<Json>)
    requires items != []
    ensures BlsFetch(seriesId, years, Ok(BlsReply(items))) == Ok(JArr(items))
  {
    var reply := BlsReply(items);
    assert reply.fields["Results"].fields["series"].items[0].fields["data"] == JArr(items);
  }

  /** The period text of an entry: "<periodName> <year>". */
  function PeriodText(latest: Json): string
    requires ReadableLatest(latest)
  {
    StrOf(latest.fields["periodName"]) + " " + StrOf(latest.fields["year"])
  }

  /** Every BLS indicator reads `data[0]`. */
  lemma IndicatorTakesFirst(seriesId: string, currentYear: int, items: seq<Json>, make: LatestValue -> Reading)
    requires items != [] && ReadableLatest(items[0])
    ensures BlsIndicator(seriesId, currentYear, Ok(BlsReply(items)), make) ==
            Ok(make(LatestValue(ToFloat(items[0].fields["value"]).value, PeriodText(items[0]))))
  {
    BlsSucceedsOnData(seriesId, BlsYears(currentYear, None, None), items);
  }

  /** A series whose entries all have a float value, a year and a period,
      and whose latest entry also has a period name and an integer year. */
  predicate WellFormedSeries(items: seq<Json>) {
    items != [] && ReadableLatest(items[0]) && ToInt(items[0].fields["year"]).Some? &&
    forall i :: 0 <= i < |items| ==> ReadableValue(items[i]) && "year" in items[i].fields && "period" in items[i].fields
  }

  /** A well-formed series reads: its latest entry, and a YoY change that
      is `None` exactly when no entry of the latest period one year before
      exists. */
  lemma WellFormedSeriesReads(items: seq<Json>)
    requires WellFormedSeries(items)
    ensures LatestOf(JArr(items)).Ok?
    ensures YoyChange(items).Ok?
    ensures NoPrior(items) <==> YoyChange(items) == Ok(None)
  {
    YoyChangeReads(items);
  }

  /** Total employment of a well-formed series: the latest value and
      period, with no YoY change exactly when there is no prior entry. */
  lemma TotalEmploymentReads(currentYear: int, items: seq<Json>)
    requires WellFormedSeries(items)
    ensures TotalEmploymentOf(currentYear, Ok(BlsReply(items))).Ok?
    ensures TotalEmploymentOf(currentYear, Ok(BlsReply(items))).value ==
            TotalEmployment(TotalEmploymentReading(ToFloat(items[0].fields["value"]).value, PeriodText(items[0]),
                                                   YoyChange(items).value))
    ensures NoPrior(items) <==> TotalEmploymentOf(currentYear, Ok(BlsReply(items))).value.total.yoyChange.None?
  {
    BlsSucceedsOnData(TotalNonfarmSeries, BlsYears(currentYear, None, None), items);
    WellFormedSeriesReads(items);
  }

  /** The keys of `fetch_all`, in the order the sources are fetched. */
  const EconomyKeys: seq<string> := ["unemployment", "employment_total", "employment_leisure",
    "employment_construction", "cpi", "population", "housing", "gas_prices", "mortgage_rate"]

  /** What the network and the environment gave each source. */
  datatype EconomyReplies = EconomyReplies(
    currentYear: int, unemployment: Reply, totalNonfarm: Reply, leisure: Reply, construction: Reply,
    cpi: Reply, population: Result<Json, string>, housing: Result<Json, string>,
    gasPrices: Result<Json, string>, fredKey: string, mortgage: Reply)

  function MortgageOutcome(r: Result<MortgageReading, string>): Result<Reading, string> {
    match r
    case Ok(m) => Ok(MortgageRate(m))
    case Err(e) => Err(e)
  }

  function Decoded(r: Result<Json, string>, wrap: Json -> Reading): Result<Reading, string> {
    match r
    case Ok(j) => Ok(wrap(j))
    case Err(e) => Err(e)
  }

  /** Each source's outcome, in key order. */
  function EconomyOutcomes(replies: EconomyReplies): (o: seq<Result<Reading, string>>)
    ensures |o| == |EconomyKeys|
  {
    var year := replies.currentYear;
    [BlsIndicator(UnemploymentSeries, year, replies.unemployment,
                  (l: LatestValue) => Unemployment(l.value, l.period, "Las Vegas-Henderson-Paradise MSA")),
     TotalEmploymentOf(year, replies.totalNonfarm),
     BlsIndicator(LeisureSeries, year, replies.leisure, (l: LatestValue) => Employment(l.value, l.period)),
     BlsIndicator(ConstructionSeries, year, replies.construction, (l: LatestValue) => Employment(l.value, l.period)),
     BlsIndicator(CpiSeries, year, replies.cpi, (l: LatestValue) => Cpi(l.value, l.period, "West Urban")),
     Decoded(replies.population, j => Population(j)),
     Decoded(replies.housing, j => Housing(j)),
     Decoded(replies.gasPrices, j => GasPrices(j)),
     MortgageOutcome(FetchMortgage(replies.fredKey, replies.mortgage))]
  }

  /** `EconomicFetcher.fetch_all`. */
  method FetchEconomy(replies: EconomyReplies, quiet: bool, summarize: (string, Reading) -> string)
    returns (data: map<string, Entry<Reading>>, lines: seq<string>)
    ensures data == Collected(EconomyKeys, EconomyOutcomes(replies))
    ensures lines == if quiet then [] else StatusLines(EconomyKeys, EconomyOutcomes(replies), summarize)
  {
    data, lines := FetchAll(EconomyKeys, EconomyOutcomes(replies), quiet, summarize);
  }

  /** Every source gets an entry of its own, holding its own reading or
      error, whatever the other sources did. */
  lemma EconomyEntries(outcomes: seq<Result<Reading, string>>)
    requires |outcomes| == |EconomyKeys|
    ensures forall i :: 0 <= i < |EconomyKeys| ==>
      EconomyKeys[i] in Collected(EconomyKeys, outcomes) &&
      Collected(EconomyKeys, outcomes)[EconomyKeys[i]] == EntryOf(outcomes[i])
  {
    var keys := EconomyKeys;
    assert forall i, j :: 0 <= i < j < |keys| ==> keys[i] != keys[j];
    CollectedEntries(keys, outcomes);
  }

  /** Without a FRED key the mortgage entry is the key error and the
      other sources are unaffected. */
  lemma MortgageNeedsKey(replies: EconomyReplies)
    requires replies.fredKey == []
    ensures Collected(EconomyKeys, EconomyOutcomes(replies))["mortgage_rate"] == ErrorEntry(FredKeyMessage)
  {
    EconomyEntries(EconomyOutcomes(replies));
    assert EconomyKeys[8] == "mortgage_rate";
  }
}
