/** The environmental fetcher of the Vegas score: which part of each
    decoded reply becomes the reading (Clark County alerts, the PM2.5
    observation, the UV index, Lake Mead's elevation and percent of
    capacity, the worst drought category), the endpoint fallbacks, and the
    `fetch_all` table of readings and errors. Every reply is a parameter. */
module Environmental {
  import opened Common
  import opened SourceFetch

  // ---------------------------------------------------------------------
  // NWS alerts

  /** One alert kept for the county: the event, severity and headline. */
  datatype Alert = Alert(event: Json, severity: Json, headline: Json)

  datatype AlertsReading = AlertsReading(clarkCountyAlerts: nat, alerts: seq<Alert>)

  /** `f.get("properties", {}).get("areaDesc", "")`. */
  function AreaDesc(feature: Json): (r: Result<Json, string>)
    ensures feature.JObj? && "properties" !in feature.fields ==> r == Ok(JStr(""))
  {
    match GetOr(feature, "properties", JObj(map[]))
    case Err(m) => Err(m)
    case Ok(props) => GetOr(props, "areaDesc", JStr(""))
  }

  /** The filter's test: the area description mentions "Clark". */
  predicate MentionsClark(area: Json) {
    area.JStr? && Contains(area.s, "Clark")
  }

  /** A feature whose properties carry an event, a severity and a
      headline. */
  predicate HasAlertFields(feature: Json) {
    feature.JObj? && "properties" in feature.fields && feature.fields["properties"].JObj? &&
    var props := feature.fields["properties"].fields;
    "event" in props && "severity" in props && "headline" in props
  }

  /** The alert built for a matching feature; a missing key is a KeyError. */
  function AlertOf(feature: Json): (r: Result<Alert, string>)
    ensures r.Ok? <==> HasAlertFields(feature)
  {
    match Field(feature, "properties")
    case Err(m) => Err(m)
    case Ok(props) =>
      match Field(props, "event")
      case Err(m) => Err(m)
      case Ok(event) =>
        match Field(props, "severity")
        case Err(m) => Err(m)
        case Ok(severity) =>
          match Field(props, "headline")
          case Err(m) => Err(m)
          case Ok(headline) => Ok(Alert(event, severity, headline))
  }

  /** A feature the filter keeps. */
  predicate Kept(feature: Json) {
    AreaDesc(feature).Ok? && MentionsClark(AreaDesc(feature).value)
  }

  /** The features whose area mentions "Clark", in order. */
  function ClarkFeatures(features: seq<Json>): (kept: seq<Json>)
    ensures |kept| <= |features|
    ensures forall f :: f in kept ==> f in features && Kept(f)
  {
    if features == [] then []
    else if Kept(features[0]) then [features[0]] + ClarkFeatures(features[1..])
    else ClarkFeatures(features[1..])
  }

  /** The comprehension of `_fetch_alerts`: test each feature in order and
      build the alert of each one kept; the first feature whose shape is
      wrong raises. */
  function ClarkAlerts(features: seq<Json>): (r: Result<seq<Alert>, string>)
    ensures r.Ok? ==> |r.value| == |ClarkFeatures(features)|
    ensures r.Ok? ==> forall i :: 0 <= i < |r.value| ==> AlertOf(ClarkFeatures(features)[i]) == Ok(r.value[i])
    ensures r.Ok? <==> forall f :: f in features ==> AreaDesc(f).Ok? && (Kept(f) ==> AlertOf(f).Ok?)
  {
    if features == [] then Ok([])
    else
      var f := features[0];
      assert forall g :: g in features <==> g == f || g in features[1..];
      match AreaDesc(f)
      case Err(m) => Err(m)
      case Ok(area) =>
        if MentionsClark(area) then
          match AlertOf(f)
          case Err(m) => Err(m)
          case Ok(alert) =>
            match ClarkAlerts(features[1..])
            case Err(m) => Err(m)
            case Ok(rest) => Ok([alert] + rest)
        else ClarkAlerts(features[1..])
  }

  /** `_fetch_alerts`: the body's "features" (default empty), filtered to
      Clark County, with their count. */
  function FetchAlerts(reply: Reply): (r: Result<AlertsReading, string>)
    ensures r.Ok? ==> r.value.clarkCountyAlerts == |r.value.alerts|
    ensures reply.Err? ==> r == Err(reply.error)
  {
    match reply
    case Err(m) => Err(m)
    case Ok(body) =>
      match GetOr(body, "features", JArr([]))
      case Err(m) => Err(m)
      case Ok(features) =>
        if features.JArr? then
          match ClarkAlerts(features.items)
          case Err(m) => Err(m)
          case Ok(alerts) => Ok(AlertsReading(|alerts|, alerts))
        else if (features.JObj? || features.JStr?) && !IsTruthy(features) then Ok(AlertsReading(0, []))
        else Err(Malformed)
  }

  /** The count is the number of features whose area mentions "Clark",
      and each alert is built from one of them, in order. */
  lemma ClarkCount(features: seq<Json>)
    requires forall f :: f in features ==> AreaDesc(f).Ok? && (Kept(f) ==> AlertOf(f).Ok?)
    ensures var r := FetchAlerts(Ok(JObj(map["features" := JArr(features)])));
      r.Ok? && r.value.clarkCountyAlerts == |ClarkFeatures(features)| &&
      forall i :: 0 <= i < |r.value.alerts| ==> AlertOf(ClarkFeatures(features)[i]) == Ok(r.value.alerts[i])
  {
  }

  /** A body without "features" has no alert. */
  lemma NoFeaturesNoAlerts(body: map<string, Json>)
    requires "features" !in body
    ensures FetchAlerts(Ok(JObj(body))) == Ok(AlertsReading(0, []))
  {
  }

  // ---------------------------------------------------------------------
  // AirNow AQI

  datatype AqiReading = AqiReading(aqi: Json, category: Json, pollutant: Json, reportingArea: Json)

  const AirNowKeyMessage: string := "Set AIRNOW_API_KEY env var (free at docs.airnowapi.org)"

  /** An observation of fine particles. */
  predicate IsPm25(d: Json) {
    d.JObj? && "ParameterName" in d.fields && d.fields["ParameterName"] == JStr("PM2.5")
  }

  /** The position of the first PM2.5 observation. */
  function FirstPm25(items: seq<Json>): (k: Option<nat>)
    ensures k.Some? ==> k.value < |items| && IsPm25(items[k.value])
    ensures k.Some? ==> forall i :: 0 <= i < k.value ==> !IsPm25(items[i])
    ensures k.None? <==> forall i :: 0 <= i < |items| ==> !IsPm25(items[i])
  {
    if items == [] then None
    else if IsPm25(items[0]) then Some(0)
    else
      match FirstPm25(items[1..])
      case Some(k) => Some(k + 1)
      case None => None
  }

  /** The observation used: the first PM2.5 one, else the first of all.
      The comprehension calls `get` on every item, so a non-object item
      anywhere raises. */
  function AqiEntry(items: seq<Json>): (r: Result<Json, string>)
    requires items != []
    ensures r.Ok? <==> forall i :: 0 <= i < |items| ==> items[i].JObj?
    ensures r.Ok? && FirstPm25(items).Some? ==> r.value == items[FirstPm25(items).value]
    ensures r.Ok? && FirstPm25(items).None? ==> r.value == items[0]
  {
    if exists i :: 0 <= i < |items| && !items[i].JObj? then Err(Malformed)
    else
      match FirstPm25(items)
      case Some(k) => Ok(items[k])
      case None => Ok(items[0])
  }

  /** The reading from the chosen observation; `Category` defaults to an
      empty dict whose "Name" is None. */
  function AqiOf(e: Json): (r: Result<AqiReading, string>)
    requires e.JObj?
    ensures r.Ok? ==> r.value.pollutant == (if "ParameterName" in e.fields then e.fields["ParameterName"] else JNull)
    ensures r.Ok? ==> r.value.aqi == (if "AQI" in e.fields then e.fields["AQI"] else JNull)
  {
    var get := (key: string) => if key in e.fields then e.fields[key] else JNull;
    match GetOr(e, "Category", JObj(map[]))
    case Err(m) => Err(m)
    case Ok(category) =>
      match GetOr(category, "Name", JNull)
      case Err(m) => Err(m)
      case Ok(name) => Ok(AqiReading(get("AQI"), name, get("ParameterName"), get("ReportingArea")))
  }

  /** `_fetch_aqi`: without a key nothing is requested and the call
      raises; an empty reply raises the same message. */
  function FetchAqi(apiKey: string, reply: Reply): (r: Result<AqiReading, string>)
    ensures apiKey == [] ==> r == Err(AirNowKeyMessage)
    ensures apiKey != [] && reply.Err? ==> r == Err(reply.error)
    ensures apiKey != [] && reply.Ok? && !IsTruthy(reply.value) ==> r == Err(AirNowKeyMessage)
  {
    if apiKey == [] then Err(AirNowKeyMessage)
    else
      match reply
      case Err(m) => Err(m)
      case Ok(data) =>
        if !IsTruthy(data) then Err(AirNowKeyMessage)
        else if !data.JArr? then Err(Malformed)
        else
          match AqiEntry(data.items)
          case Err(m) => Err(m)
          case Ok(e) => AqiOf(e)
  }

  /** With a key and a list of observations, the PM2.5 one is reported
      when there is one, and the first observation otherwise. */
  lemma AqiPrefersPm25(apiKey: string, items: seq<Json>)
    requires apiKey != [] && items != []
    requires forall i :: 0 <= i < |items| ==> items[i].JObj?
    requires forall i :: 0 <= i < |items| ==> "Category" !in items[i].fields
    ensures var r := FetchAqi(apiKey, Ok(JArr(items)));
      r.Ok? &&
      ((exists i :: 0 <= i < |items| && IsPm25(items[i])) ==> r.value.pollutant == JStr("PM2.5")) &&
      ((forall i :: 0 <= i < |items| ==> !IsPm25(items[i])) ==> r == AqiOf(items[0]))
  {
  }

  // ---------------------------------------------------------------------
  // EPA UV index

  datatype UvReading = UvReading(uvIndex: Json, uvAlert: bool, zip: string)

  const UvUnavailable: string := "EPA UV API unavailable \U{2014} endpoints may be offline"

  /** A UV reply is usable when it is a non-empty list whose first item is
      an object; its `UV_ALERT` is read for truthiness. */
  function ParseUv(data: Json): (r: Option<UvReading>)
    ensures r.Some? <==> data.JArr? && data.items != [] && data.items[0].JObj?
    ensures r.Some? ==> r.value.zip == "89052"
  {
    if data.JArr? && data.items != [] && data.items[0].JObj? then
      var first := data.items[0].fields;
      Some(UvReading(if "UV_INDEX" in first then first["UV_INDEX"] else JNull,
                     "UV_ALERT" in first && IsTruthy(first["UV_ALERT"]), "89052"))
    else None
  }

  /** `_fetch_uv` over the replies of its two hosts, in listed order. */
  method FetchUv(replies: seq<Reply>) returns (r: Result<UvReading, string>)
    ensures r == Fallback(replies, ParseUv, UvUnavailable)
  {
    r := TryEndpoints(replies, ParseUv, UvUnavailable);
  }

  /** The second host is consulted only when the first fails. */
  lemma UvSecondHost(first: Reply, second: Reply)
    ensures first.Ok? && ParseUv(first.value).Some? ==>
      Fallback([first, second], ParseUv, UvUnavailable) == Ok(ParseUv(first.value).value)
    ensures Unusable(first, ParseUv) ==>
      Fallback([first, second], ParseUv, UvUnavailable) ==
        (if Unusable(second, ParseUv) then Err(UvUnavailable) else Ok(ParseUv(second.value).value))
  {
    FallbackOrder([first, second], ParseUv, UvUnavailable);
    assert FirstUsable([first, second], ParseUv, 0) <==> !Unusable(first, ParseUv);
    assert Unusable(first, ParseUv) ==> (FirstUsable([first, second], ParseUv, 1) <==> !Unusable(second, ParseUv));
  }

  // ---------------------------------------------------------------------
  // Lake Mead elevation

  const DeadPool: real := 895.0
  const FullPool: real := 1229.0

  /** Percent of capacity between dead pool and full pool, before
      rounding to one decimal. */
  function CapacityPercent(elevation: real): (pct: real)
    ensures elevation == DeadPool ==> pct == 0.0
    ensures elevation == FullPool ==> pct == 100.0
    ensures DeadPool <= elevation <= FullPool <==> 0.0 <= pct <= 100.0
  {
    (elevation - DeadPool) / (FullPool - DeadPool) * 100.0
  }

  /** A higher lake is a fuller lake. */
  lemma CapacityIncreasing(a: real, b: real)
    requires a < b
    ensures CapacityPercent(a) < CapacityPercent(b)
  {
  }

  datatype LakeReading = LakeReading(elevation: Json, pctCapacity: real, date: Json)

  const NoLakeData: string := "No Lake Mead elevation data returned"

  /** The elevation and date a truthy reply offers: from the point under
      key "0", or from the first item of a list (its "result", else its
      "value"). `"0" in data` also matches a list holding the string "0"
      or a string containing '0', and then `data["0"]` raises. No
      candidate is an elevation of None. */
  function LakeCandidate(data: Json): (r: Result<(Json, Json), string>)
  {
    match data
    case JObj(fields) =>
      if "0" in fields then
        var point := fields["0"];
        (match GetOr(point, "result", JNull)
         case Err(m) => Err(m)
         case Ok(elev) =>
           match GetOr(point, "dateTime", JStr(""))
           case Err(m) => Err(m)
           case Ok(date) => Ok((elev, date)))
      else Ok((JNull, JStr("")))
    case JArr(items) =>
      if JStr("0") in items then Err(Malformed)
      else if items == [] then Ok((JNull, JStr("")))
      else
        (match GetOr(items[0], "value", JNull)
         case Err(m) => Err(m)
         case Ok(value) =>
           match GetOr(items[0], "result", value)
           case Err(m) => Err(m)
           case Ok(elev) =>
             match GetOr(items[0], "dateTime", JStr(""))
             case Err(m) => Err(m)
             case Ok(date) => Ok((elev, date)))
    case JStr(s) => if Contains(s, "0") then Err(Malformed) else Ok((JNull, JStr("")))
    case _ => Err(Malformed)
  }

  /** `_fetch_lake_mead`: the elevation when there is one, with its
      percent of capacity; an empty reply or a missing elevation raises
      "No Lake Mead elevation data returned". */
  function LakeMead(reply: Reply): (r: Result<LakeReading, string>)
    ensures reply.Ok? && !IsTruthy(reply.value) ==> r == Err(NoLakeData)
    ensures r.Ok? ==> r.value.elevation != JNull && ToFloat(r.value.elevation).Some?
    ensures r.Ok? ==> r.value.pctCapacity == CapacityPercent(ToFloat(r.value.elevation).value)
  {
    match reply
    case Err(m) => Err(m)
    case Ok(data) =>
      if !IsTruthy(data) then Err(NoLakeData)
      else
        match LakeCandidate(data)
        case Err(m) => Err(m)
        case Ok((elev, date)) =>
          if elev == JNull then Err(NoLakeData)
          else
            match ToFloat(elev)
            case None => Err(Malformed)
            case Some(e) => Ok(LakeReading(elev, CapacityPercent(e), date))
  }

  /** The two reply shapes: the dict of numbered points uses point "0"'s
      result, and a list uses its first item's result, or its value when
      there is no result; a point with neither raises. */
  lemma LakeMeadShapes(point: map<string, Json>, e: real, rest: map<string, Json>, items: seq<Json>)
    ensures "result" in point && point["result"] == JReal(e) ==>
      var r := LakeMead(Ok(JObj(rest["0" := JObj(point)])));
      r.Ok? && r.value.pctCapacity == CapacityPercent(e)
    ensures "result" !in point && "value" in point && point["value"] == JReal(e) ==>
      var r := LakeMead(Ok(JArr([JObj(point)] + items)));
      JStr("0") !in items ==> r.Ok? && r.value.pctCapacity == CapacityPercent(e)
    ensures "result" !in point ==> LakeMead(Ok(JObj(rest["0" := JObj(point)]))) == Err(NoLakeData)
  {
    var d := JObj(rest["0" := JObj(point)]);
    assert IsTruthy(d) by {
      assert "0" in d.fields;
    }
    var l := JArr([JObj(point)] + items);
    assert JStr("0") !in items ==> JStr("0") !in l.items;
  }

  // ---------------------------------------------------------------------
  // US Drought Monitor

  /** The levels from most to least severe. */
  const DroughtLevels: seq<string> := ["d4", "d3", "d2", "d1", "d0"]

  function DroughtLabel(level: string): string {
    if level == "d0" then "D0 (Abnormally Dry)"
    else if level == "d1" then "D1 (Moderate Drought)"
    else if level == "d2" then "D2 (Severe Drought)"
    else if level == "d3" then "D3 (Extreme Drought)"
    else if level == "d4" then "D4 (Exceptional Drought)"
    else Upper(level)
  }

  function Upper(s: string): (r: string)
    ensures |r| == |s|
  {
    if s == [] then []
    else [if 'a' <= s[0] <= 'z' then (s[0] as int - 32) as char else s[0]] + Upper(s[1..])
  }

  /** How one level reads: a falsy value (absent means 0) is not a
      drought; a truthy one must convert with `float()`, which may raise. */
  datatype LevelCheck = NotPositive | PositiveAt(pct: real) | Unreadable

  function CheckLevel(latest: map<string, Json>, level: string): (c: LevelCheck)
    ensures c.PositiveAt? ==> c.pct > 0.0
    ensures level !in latest ==> c == NotPositive
  {
    var pct := if level in latest then latest[level] else JInt(0);
    if !IsTruthy(pct) then NotPositive
    else
      match ToFloat(pct)
      case None => Unreadable
      case Some(x) => if x > 0.0 then PositiveAt(x) else NotPositive
  }

  /** Level `k` is the first of `levels` that is not `NotPositive`. */
  predicate FirstChecked(latest: map<string, Json>, levels: seq<string>, k: int) {
    0 <= k < |levels| && CheckLevel(latest, levels[k]) != NotPositive &&
    forall i :: 0 <= i < k ==> CheckLevel(latest, levels[i]) == NotPositive
  }

  /** The first level, in the given order, that is positive: `Ok(None)`
      when none is, `Err` when an unreadable level comes first. */
  function ScanLevels(latest: map<string, Json>, levels: seq<string>): (r: Result<Option<(string, real)>, string>)
    ensures r.Ok? && r.value.Some? ==>
      CheckLevel(latest, r.value.value.0) == PositiveAt(r.value.value.1)
    ensures r.Ok? && r.value.Some? ==>
      (exists k :: FirstChecked(latest, levels, k) && levels[k] == r.value.value.0)
    ensures r.Err? ==> exists k :: FirstChecked(latest, levels, k) && CheckLevel(latest, levels[k]) == Unreadable
    ensures r == Ok(None) <==> forall i :: 0 <= i < |levels| ==> CheckLevel(latest, levels[i]) == NotPositive
  {
    if levels == [] then Ok(None)
    else
      match CheckLevel(latest, levels[0])
      case Unreadable =>
        assert FirstChecked(latest, levels, 0);
        Err(Malformed)
      case PositiveAt(p) =>
        assert FirstChecked(latest, levels, 0);
        Ok(Some((levels[0], p)))
      case NotPositive =>
        var rest := ScanLevels(latest, levels[1..]);
        assert forall k :: FirstChecked(latest, levels[1..], k) ==> FirstChecked(latest, levels, k + 1);
        rest
  }

  /** The level loop of `_fetch_drought`, most severe first, returning at
      the first positive level. */
  method WorstLevel(latest: map<string, Json>) returns (r: Result<Option<(string, real)>, string>)
    ensures r == ScanLevels(latest, DroughtLevels)
  {
    var i := 0;
    while i < |DroughtLevels|
      invariant 0 <= i <= |DroughtLevels|
      invariant ScanLevels(latest, DroughtLevels) == ScanLevels(latest, DroughtLevels[i..])
      decreases |DroughtLevels| - i
    {
      var level := DroughtLevels[i];
      assert DroughtLevels[i..][0] == level;
      var check := CheckLevel(latest, level);
      if check.Unreadable? {
        return Err(Malformed);
      }
      if check.PositiveAt? {
        return Ok(Some((level, check.pct)));
      }
      assert DroughtLevels[i..][1..] == DroughtLevels[i + 1..];
      i := i + 1;
    }
    assert DroughtLevels[i..] == [];
    r := Ok(None);
  }

  datatype DroughtReading = DroughtReading(category: string, pctArea: real, nonePct: Json, d0Pct: Json, d1Pct: Json)

  const DroughtUnavailable: string := "Drought Monitor API unavailable on both domains"

  /** The reading from the latest record: the worst positive level with
      its percentage, or "None" with 0 when no level is positive. */
  function DroughtFrom(latest: map<string, Json>): (r: Option<DroughtReading>)
  {
    var get := (key: string, default: Json) => if key in latest then latest[key] else default;
    match ScanLevels(latest, DroughtLevels)
    case Err(_) => None
    case Ok(Some((level, pct))) =>
      Some(DroughtReading(DroughtLabel(level), pct, get("none", JInt(0)), get("d0", JInt(0)), get("d1", JInt(0))))
    case Ok(None) => Some(DroughtReading("None", 0.0, get("none", JInt(100)), JInt(0), JInt(0)))
  }

  /** One drought reply: an empty one, a latest record that is not an
      object, or an unreadable level moves on to the next domain. The
      latest record is the last of a list. */
  function ParseDrought(data: Json): (r: Option<DroughtReading>)
  {
    if !IsTruthy(data) then None
    else
      var latest := if data.JArr? then data.items[|data.items| - 1] else data;
      if latest.JObj? then DroughtFrom(latest.fields) else None
  }

  /** The category is the most severe positive level, reported with its
      percentage; with no positive level it is "None" at 0 percent. */
  lemma WorstDroughtCategory(latest: map<string, Json>)
    ensures var r := DroughtFrom(latest);
      r.Some? && r.value.category != "None" ==>
        exists k :: FirstChecked(latest, DroughtLevels, k) && r.value.category == DroughtLabel(DroughtLevels[k]) &&
          CheckLevel(latest, DroughtLevels[k]) == PositiveAt(r.value.pctArea)
    ensures (forall i :: 0 <= i < 5 ==> CheckLevel(latest, DroughtLevels[i]) == NotPositive) ==>
      DroughtFrom(latest) == Some(DroughtReading("None", 0.0, if "none" in latest then latest["none"] else JInt(100),
                                                 JInt(0), JInt(0)))
  {
    var s := ScanLevels(latest, DroughtLevels);
    if s.Ok? && s.value.Some? {
      var k :| FirstChecked(latest, DroughtLevels, k) && DroughtLevels[k] == s.value.value.0;
      assert DroughtFrom(latest).value.category == DroughtLabel(DroughtLevels[k]);
    }
  }

  /** `_fetch_drought` over the replies of its two domains, in order. */
  method FetchDrought(replies: seq<Reply>) returns (r: Result<DroughtReading, string>)
    ensures r == Fallback(replies, ParseDrought, DroughtUnavailable)
  {
    r := TryEndpoints(replies, ParseDrought, DroughtUnavailable);
  }

  // ---------------------------------------------------------------------
  // fetch_all

  /** The keys of `fetch_all`, in the order the sources are fetched. */
  const EnvironmentKeys: seq<string> := ["weather", "alerts", "aqi", "uv", "water_level", "river_flow", "drought"]

  /** A stored reading. The weather forecast and the river gauge are not
      part of this model: their readings arrive as decoded values. */
  datatype Reading =
    | Weather(weather: Json)
    | Alerts(alerts: AlertsReading)
    | Aqi(aqi: AqiReading)
    | Uv(uv: UvReading)
    | WaterLevel(lake: LakeReading)
    | RiverFlow(river: Json)
    | Drought(drought: DroughtReading)

  function Lift<T>(r: Result<T, string>, wrap: T -> Reading): (l: Result<Reading, string>)
    ensures r.Err? ==> l == Err(r.error)
    ensures r.Ok? ==> l == Ok(wrap(r.value))
  {
    match r
    case Ok(v) => Ok(wrap(v))
    case Err(m) => Err(m)
  }

  /** What the network gave each source. */
  datatype EnvironmentReplies = EnvironmentReplies(
    weather: Result<Json, string>, alerts: Reply, airnowKey: string, aqi: Reply,
    uv: seq<Reply>, lake: Reply, riverFlow: Result<Json, string>, drought: seq<Reply>)

  /** Each source's outcome, in key order. */
  function EnvironmentOutcomes(replies: EnvironmentReplies): (o: seq<Result<Reading, string>>)
    ensures |o| == |EnvironmentKeys|
  {
    [Lift(replies.weather, w => Weather(w)),
     Lift(FetchAlerts(replies.alerts), a => Alerts(a)),
     Lift(FetchAqi(replies.airnowKey, replies.aqi), a => Aqi(a)),
     Lift(Fallback(replies.uv, ParseUv, UvUnavailable), u => Uv(u)),
     Lift(LakeMead(replies.lake), l => WaterLevel(l)),
     Lift(replies.riverFlow, f => RiverFlow(f)),
     Lift(Fallback(replies.drought, ParseDrought, DroughtUnavailable), d => Drought(d))]
  }

  /** `EnvironmentalFetcher.fetch_all`. */
  method FetchEnvironment(replies: EnvironmentReplies, quiet: bool, summarize: (string, Reading) -> string)
    returns (data: map<string, Entry<Reading>>, lines: seq<string>)
    ensures data == Collected(EnvironmentKeys, EnvironmentOutcomes(replies))
    ensures lines == if quiet then [] else StatusLines(EnvironmentKeys, EnvironmentOutcomes(replies), summarize)
  {
    var uv := FetchUv(replies.uv);
    var drought := FetchDrought(replies.drought);
    var outcomes := [Lift(replies.weather, w => Weather(w)),
                     Lift(FetchAlerts(replies.alerts), a => Alerts(a)),
                     Lift(FetchAqi(replies.airnowKey, replies.aqi), a => Aqi(a)),
                     Lift(uv, u => Uv(u)),
                     Lift(LakeMead(replies.lake), l => WaterLevel(l)),
                     Lift(replies.riverFlow, f => RiverFlow(f)),
                     Lift(drought, d => Drought(d))];
    data, lines := FetchAll(EnvironmentKeys, outcomes, quiet, summarize);
  }

  /** Every source gets an entry of its own, holding its own reading or
      error: a failure of one source is recorded as that source's error
      and leaves the others' entries as they are. */
  lemma EnvironmentEntries(outcomes: seq<Result<Reading, string>>)
    requires |outcomes| == |EnvironmentKeys|
    ensures forall i :: 0 <= i < |EnvironmentKeys| ==>
      EnvironmentKeys[i] in Collected(EnvironmentKeys, outcomes) &&
      Collected(EnvironmentKeys, outcomes)[EnvironmentKeys[i]] == EntryOf(outcomes[i])
  {
    var keys := EnvironmentKeys;
    assert forall i, j :: 0 <= i < j < |keys| ==> keys[i] != keys[j];
    CollectedEntries(keys, outcomes);
  }
}
