/** The argument checks and request parameters of `EcobeeService`
    (`pyecobee/service.py`). Each method first checks its arguments in a
    fixed order and raises on the first one that fails; a method that
    passes them builds its request parameters key by key, in insertion
    order, and hands them to the HTTP layer (not modelled). Argument types
    are Dafny types here, so the `TypeError`s for arguments of the wrong
    type cannot arise, except for the string arguments checked below, which
    arrive as Python values. */
module Service {
  import opened Wire
  import opened Text
  import opened Objects
  import opened Calendar

  const ApplicationKeyLength := 32
  const MaximumThermostats := 25
  const MaximumReportDays := 31
  const MinimumCoolingTemperature := -10
  const MaximumCoolingTemperature := 120
  const MinimumHeatingTemperature := 45
  const MaximumHeatingTemperature := 120
  const MaximumFanMinOnTime := 60
  const MaximumSensorNameLength := 32

  /** `BEFORE_TIME_BEGAN_DATE_TIME` and `END_OF_TIME_DATE_TIME`, in UTC. */
  const BeforeTimeBegan := DateTime(2008, 1, 2, 0, 0, 0)
  const EndOfTime := DateTime(2035, 1, 1, 0, 0, 0)

  /** Why a method rejects its arguments. */
  datatype Rejection =
    | NotAString(argument: string)   // TypeError
    | WrongKeyLength                 // ValueError: an application key that is not 32 characters
    | WrongResponseType              // ValueError: response_type is not 'ecobeePin'
    | WrongGrantType                 // ValueError: an unexpected grant_type
    | NotThermostatSelection         // ValueError: selection_type is not 'thermostats'
    | TooManyThermostats             // ValueError: more than 25 thermostats selected
    | TooEarly                       // ValueError: before 2008-01-02 00:00:00 UTC
    | TooLate                        // ValueError: after 2035-01-01 00:00:00 UTC
    | EndNotAfterStart               // ValueError
    | SpanTooLong                    // ValueError: more than 31 whole days
    | MetersNotEnergy                // ValueError
    | MeterCountMismatch             // ValueError
    | CoolOutOfRange                 // ValueError
    | HeatOutOfRange                 // ValueError
    | NoHoldTarget                   // ValueError: no temperatures and no climate
    | TemperaturesRequired           // ValueError: no climate and a temperature missing
    | EndRequired                    // ValueError: a date-time hold without an end
    | HoursRequired                  // ValueError: an hours hold without hours
    | FanMinOnTimeOutOfRange         // ValueError
    | NameTooLong                    // ValueError

  /** `HoldType`, `PlugState` and `FanMode` of `pyecobee/enumerations.py`. */
  datatype HoldType = HoldHours | Indefinite | NextTransition | DateTimeHold

  function HoldTypeValue(h: HoldType): string {
    match h
    case HoldHours => "holdHours"
    case Indefinite => "indefinite"
    case NextTransition => "nextTransition"
    case DateTimeHold => "dateTime"
  }

  datatype PlugState = PlugOff | PlugOn | PlugResume

  function PlugStateValue(p: PlugState): string {
    match p
    case PlugOff => "off"
    case PlugOn => "on"
    case PlugResume => "resume"
  }

  datatype FanMode = FanAuto | FanOn

  function FanModeValue(f: FanMode): string {
    match f
    case FanAuto => "auto"
    case FanOn => "on"
  }

  /** The two `Selection` fields the service reads. */
  datatype Selection = Selection(selectionType: string, selectionMatch: string)

  /** `object_to_dictionary(selection)`. */
  function SelectionJson(s: Selection): Json {
    JObject([Member("selectionType", JStr(s.selectionType)), Member("selectionMatch", JStr(s.selectionMatch))])
  }

  /** A `Function` of an update request: its type and, unless `None`, its
      parameters. */
  datatype Function = Function(kind: string, params: Option<seq<Member>>)

  /** `object_to_dictionary(function_)`: a `None` parameter dictionary is
      omitted. */
  function FunctionJson(f: Function): (j: Json)
    ensures j.JObject? && Lookup(j.members, "type") == Some(JStr(f.kind))
    ensures f.params.Some? <==> HasKey(j.members, "params")
    ensures f.params.Some? ==> Lookup(j.members, "params") == Some(JObject(f.params.value))
  {
    if f.params.Some? then
      var ms := [Member("type", JStr(f.kind)), Member("params", JObject(f.params.value))];
      assert KeysOf(ms) == ["type", "params"];
      JObject(ms)
    else
      assert KeysOf([Member("type", JStr(f.kind))]) == ["type"];
      JObject([Member("type", JStr(f.kind))])
  }

  // ---------------------------------------------------------------- keys and grants

  /** `__init__`: the application key must be a string of 32 characters. */
  function CheckApplicationKey(key: Value): (r: Result<string, Rejection>)
    ensures r.Ok? <==> key.VStr? && |key.s| == ApplicationKeyLength
    ensures r.Ok? ==> r.value == key.s
    ensures !key.VStr? ==> r == Err(NotAString("application_key"))
  {
    if !key.VStr? then Err(NotAString("application_key"))
    else if |key.s| != ApplicationKeyLength then Err(WrongKeyLength)
    else Ok(key.s)
  }

  /** `authorize`: `response_type` must be the string `'ecobeePin'`. */
  function CheckResponseType(responseType: Value): (r: Result<string, Rejection>)
    ensures r.Ok? <==> responseType == VStr("ecobeePin")
    ensures r.Ok? ==> r.value == "ecobeePin"
  {
    if !responseType.VStr? then Err(NotAString("response_type"))
    else if responseType.s != "ecobeePin" then Err(WrongResponseType)
    else Ok(responseType.s)
  }

  /** `request_tokens` expects the grant type `'ecobeePin'` and
      `refresh_tokens` the grant type `'refresh_token'`. */
  function CheckGrantType(grantType: Value, expected: string): (r: Result<string, Rejection>)
    ensures r.Ok? <==> grantType == VStr(expected)
    ensures r.Ok? ==> r.value == expected
  {
    if !grantType.VStr? then Err(NotAString("grant_type"))
    else if grantType.s != expected then Err(WrongGrantType)
    else Ok(grantType.s)
  }

  // ---------------------------------------------------------------- date windows

  /** Between 2008-01-02 and 2035-01-01, both included. */
  predicate InService(t: DateTime) {
    !Before(t, BeforeTimeBegan) && !Before(EndOfTime, t)
  }

  lemma BoundsValid()
    ensures Valid(BeforeTimeBegan) && Valid(EndOfTime)
  {
  }

  /** Python compares aware datetimes by instant: a date-time is in service
      exactly when its instant lies between the two bounds' instants. */
  lemma InServiceByInstant(t: DateTime)
    requires Valid(t)
    ensures InService(t) <==> Instant(BeforeTimeBegan) <= Instant(t) <= Instant(EndOfTime)
  {
    BoundsValid();
    BetweenByInstant(BeforeTimeBegan, t, EndOfTime);
  }

  /** `t` lies between `lo` and `hi` in calendar order exactly when its
      instant lies between theirs. */
  lemma BetweenByInstant(lo: DateTime, t: DateTime, hi: DateTime)
    requires Valid(lo) && Valid(t) && Valid(hi)
    ensures !Before(t, lo) && !Before(hi, t) <==> Instant(lo) <= Instant(t) <= Instant(hi)
  {
    InstantOrder(t, lo);
    InstantOrder(hi, t);
  }

  /** `(end - start).days` of a positive difference: whole days. */
  function WholeDays(start: DateTime, end: DateTime): int
    requires Valid(start) && Valid(end)
  {
    (Instant(end) - Instant(start)) / 86400
  }

  /** The window of a report: both ends in service, the start strictly
      first, and less than 32 days (31 whole days and a part) between. */
  predicate ReportWindow(start: DateTime, end: DateTime)
    requires Valid(start) && Valid(end)
  {
    InService(start) && InService(end) && Instant(start) < Instant(end) < Instant(start) + 32 * 86400
  }

  /** The date checks of the report requests, in the source's order. */
  function CheckReportWindow(start: DateTime, end: DateTime): (r: Result<(), Rejection>)
    requires Valid(start) && Valid(end)
    ensures r.Ok? <==> ReportWindow(start, end)
  {
    InstantOrder(start, end);
    if Before(start, BeforeTimeBegan) then Err(TooEarly)
    else if Before(EndOfTime, start) then Err(TooLate)
    else if Before(end, BeforeTimeBegan) then Err(TooEarly)
    else if Before(EndOfTime, end) then Err(TooLate)
    else if !Before(start, end) then Err(EndNotAfterStart)
    else if WholeDays(start, end) > MaximumReportDays then Err(SpanTooLong)
    else Ok(())
  }

  /** The optional start and end of a hold or vacation: each present one in
      service, and the start strictly first when both are present. */
  predicate OptionalWindow(start: Option<DateTime>, end: Option<DateTime>)
    requires start.Some? ==> Valid(start.value)
    requires end.Some? ==> Valid(end.value)
  {
    (start.Some? ==> InService(start.value)) && (end.Some? ==> InService(end.value))
    && (start.Some? && end.Some? ==> Before(start.value, end.value))
  }

  function CheckOptionalWindow(start: Option<DateTime>, end: Option<DateTime>): (r: Result<(), Rejection>)
    requires start.Some? ==> Valid(start.value)
    requires end.Some? ==> Valid(end.value)
    ensures r.Ok? <==> OptionalWindow(start, end)
  {
    if start.Some? && Before(start.value, BeforeTimeBegan) then Err(TooEarly)
    else if start.Some? && Before(EndOfTime, start.value) then Err(TooLate)
    else if end.Some? && Before(end.value, BeforeTimeBegan) then Err(TooEarly)
    else if end.Some? && Before(EndOfTime, end.value) then Err(TooLate)
    else if start.Some? && end.Some? && !Before(start.value, end.value) then Err(EndNotAfterStart)
    else Ok(())
  }

  /** What a hold type needs: an end for `DATE_TIME`, hours for
      `HOLD_HOURS`. */
  predicate HoldPrerequisites(holdType: HoldType, end: Option<DateTime>, hours: Option<int>) {
    (holdType == DateTimeHold ==> end.Some?) && (holdType == HoldHours ==> hours.Some?)
  }

  /** The date and hold checks shared by `control_plug`, `set_hold` and
      `set_occupied`. */
  function CheckHold(start: Option<DateTime>, end: Option<DateTime>, holdType: HoldType, hours: Option<int>)
    : (r: Result<(), Rejection>)
    requires start.Some? ==> Valid(start.value)
    requires end.Some? ==> Valid(end.value)
    ensures r.Ok? <==> OptionalWindow(start, end) && HoldPrerequisites(holdType, end, hours)
    ensures OptionalWindow(start, end) && holdType == DateTimeHold && end.None? ==> r == Err(EndRequired)
    ensures OptionalWindow(start, end) && holdType == HoldHours && hours.None? ==> r == Err(HoursRequired)
  {
    var _ :- CheckOptionalWindow(start, end);
    if holdType == DateTimeHold && end.None? then Err(EndRequired)
    else if holdType == HoldHours && hours.None? then Err(HoursRequired)
    else Ok(())
  }

  // ---------------------------------------------------------------- reports

  /** The thermostat identifiers of `selection_match.split(',')`. */
  function Thermostats(s: Selection): (ids: seq<string>)
    ensures |ids| >= 1
  {
    Split(s.selectionMatch, ',')
  }

  /** The selection a report may be requested for. */
  predicate ReportSelection(s: Selection) {
    s.selectionType == "thermostats" && |Thermostats(s)| <= MaximumThermostats
  }

  /** `request_runtime_report`'s checks. */
  function CheckRuntimeReport(s: Selection, start: DateTime, end: DateTime): (r: Result<(), Rejection>)
    requires Valid(start) && Valid(end)
    ensures r.Ok? <==> ReportSelection(s) && ReportWindow(start, end)
    ensures s.selectionType != "thermostats" ==> r == Err(NotThermostatSelection)
  {
    if s.selectionType != "thermostats" then Err(NotThermostatSelection)
    else if |Thermostats(s)| > MaximumThermostats then Err(TooManyThermostats)
    else CheckReportWindow(start, end)
  }

  /** `"energy,energy,…,energy"` with `n` entries. */
  function EnergyMeters(n: nat): string
    requires n >= 1
  {
    Join(Energies(n), ',')
  }

  function Energies(n: nat): (es: seq<string>)
    ensures |es| == n && forall i :: 0 <= i < n ==> es[i] == "energy"
  {
    seq(n, _ => "energy")
  }

  /** `request_meter_report`'s checks: those of a runtime report, then
      every meter must be `'energy'`, then there must be one meter per
      selected thermostat. */
  function CheckMeterReport(s: Selection, start: DateTime, end: DateTime, meters: string): (r: Result<(), Rejection>)
    requires Valid(start) && Valid(end)
    ensures r.Ok? <==> (ReportSelection(s) && ReportWindow(start, end)
                        && (forall m :: m in Split(meters, ',') ==> m == "energy")
                        && |Split(meters, ',')| == |Thermostats(s)|)
  {
    var _ :- CheckRuntimeReport(s, start, end);
    if exists m :: m in Split(meters, ',') && m != "energy" then Err(MetersNotEnergy)
    else if |Thermostats(s)| != |Split(meters, ',')| then Err(MeterCountMismatch)
    else Ok(())
  }

  /** The meters a valid meter report names are exactly `"energy"` once
      per selected thermostat, comma-separated. */
  lemma {:induction false} AcceptedMeters(s: Selection, start: DateTime, end: DateTime, meters: string)
    requires Valid(start) && Valid(end) && ReportSelection(s) && ReportWindow(start, end)
    ensures CheckMeterReport(s, start, end, meters).Ok? <==> meters == EnergyMeters(|Thermostats(s)|)
  {
    var n := |Thermostats(s)|;
    if CheckMeterReport(s, start, end, meters).Ok? {
      var ms := Split(meters, ',');
      forall i | 0 <= i < |ms| ensures ms[i] == "energy" {
        assert ms[i] in ms;
      }
      assert ms == Energies(n);
      JoinSplit(meters, ',');
    }
    if meters == EnergyMeters(n) {
      SplitJoin(Energies(n), ',');
    }
  }

  /** The date and interval keys of a report request. */
  function WindowParams(start: DateTime, end: DateTime): seq<Member>
    requires Valid(start) && Valid(end)
  {
    [Member("startDate", JStr(FormatDate(start))), Member("startInterval", JInt(Interval(start))),
     Member("endDate", JStr(FormatDate(end))), Member("endInterval", JInt(Interval(end)))]
  }

  /** The `json` dictionary of `request_meter_report`. */
  function MeterReportParams(s: Selection, start: DateTime, end: DateTime, meters: string): (ps: seq<Member>)
    requires Valid(start) && Valid(end)
    ensures KeysOf(ps) == ["selection", "startDate", "startInterval", "endDate", "endInterval", "meters"]
  {
    [Member("selection", SelectionJson(s))] + WindowParams(start, end) + [Member("meters", JStr(meters))]
  }

  /** The `json` dictionary of `request_runtime_report`. */
  function RuntimeReportParams(s: Selection, start: DateTime, end: DateTime, columns: string, includeSensors: bool)
    : (ps: seq<Member>)
    requires Valid(start) && Valid(end)
    ensures KeysOf(ps) == ["selection", "startDate", "startInterval", "endDate", "endInterval", "columns",
                           "includeSensors"]
  {
    [Member("selection", SelectionJson(s))] + WindowParams(start, end)
    + [Member("columns", JStr(columns)), Member("includeSensors", JBool(includeSensors))]
  }

  /** A meter report request, or why it is refused. */
  function RequestMeterReport(s: Selection, start: DateTime, end: DateTime, meters: string)
    : (r: Result<seq<Member>, Rejection>)
    requires Valid(start) && Valid(end)
    ensures r.Ok? <==> CheckMeterReport(s, start, end, meters).Ok?
    ensures r.Ok? ==> r.value == MeterReportParams(s, start, end, meters)
  {
    var _ :- CheckMeterReport(s, start, end, meters);
    Ok(MeterReportParams(s, start, end, meters))
  }

  /** A runtime report request, or why it is refused. */
  function RequestRuntimeReport(s: Selection, start: DateTime, end: DateTime, columns: string, includeSensors: bool)
    : (r: Result<seq<Member>, Rejection>)
    requires Valid(start) && Valid(end)
    ensures r.Ok? <==> ReportSelection(s) && ReportWindow(start, end)
    ensures r.Ok? ==> r.value == RuntimeReportParams(s, start, end, columns, includeSensors)
  {
    var _ :- CheckRuntimeReport(s, start, end);
    Ok(RuntimeReportParams(s, start, end, columns, includeSensors))
  }

  /** A report request names the start and end days and the 5-minute slots
      that hold the start and end times, and the two ends lie in order
      less than 32 days apart. */
  lemma ReportRequestWindow(s: Selection, start: DateTime, end: DateTime, columns: string, includeSensors: bool)
    requires Valid(start) && Valid(end)
    requires RequestRuntimeReport(s, start, end, columns, includeSensors).Ok?
    ensures var ps := RequestRuntimeReport(s, start, end, columns, includeSensors).value;
      ps[1].value.JStr? && ParseTriple(ps[1].value.s, '-') == Some((start.year as nat, start.month as nat, start.day as nat))
      && ps[2].value.JInt? && ps[2].value.i * 300 <= SecondOfDay(start) < ps[2].value.i * 300 + 300
      && ps[3].value.JStr? && ParseTriple(ps[3].value.s, '-') == Some((end.year as nat, end.month as nat, end.day as nat))
      && ps[4].value.JInt? && ps[4].value.i * 300 <= SecondOfDay(end) < ps[4].value.i * 300 + 300
    ensures Instant(start) < Instant(end) < Instant(start) + 32 * 86400
  {
    FormatDateRoundTrip(start);
    FormatDateRoundTrip(end);
    IntervalSlot(start);
    IntervalSlot(end);
    InstantOrder(start, end);
  }

  // ---------------------------------------------------------------- thermostat functions

  /** The `startDate`/`startTime` (or `endDate`/`endTime`) keys of a
      date-time, present only when the date-time is given. */
  function DateTimeParams(dateKey: string, timeKey: string, t: Option<DateTime>): (ps: seq<Member>)
    requires t.Some? ==> Valid(t.value)
    ensures t.None? <==> ps == []
    ensures t.Some? ==> KeysOf(ps) == [dateKey, timeKey]
    ensures t.Some? ==> ps[0].value.JStr? && ps[1].value.JStr?
    ensures t.Some? ==> ParseTriple(ps[0].value.s, '-') == Some((t.value.year as nat, t.value.month as nat, t.value.day as nat))
    ensures t.Some? ==> ParseTriple(ps[1].value.s, ':') == Some((t.value.hour as nat, t.value.minute as nat, t.value.second as nat))
  {
    if t.Some? then
      FormatDateRoundTrip(t.value);
      FormatTimeRoundTrip(t.value);
      [Member(dateKey, JStr(FormatDate(t.value))), Member(timeKey, JStr(FormatTime(t.value)))]
    else []
  }

  /** `holdHours`, present only when the hours are truthy: `0` is left out. */
  function HoursParams(hours: Option<int>): (ps: seq<Member>)
    ensures ps != [] <==> hours.Some? && hours.value != 0
    ensures ps != [] ==> ps == [Member("holdHours", JInt(hours.value))]
  {
    if hours.Some? && hours.value != 0 then [Member("holdHours", JInt(hours.value))] else []
  }

  /** The timing keys of a hold. */
  function HoldTimingParams(start: Option<DateTime>, end: Option<DateTime>, hours: Option<int>): seq<Member>
    requires start.Some? ==> Valid(start.value)
    requires end.Some? ==> Valid(end.value)
  {
    DateTimeParams("startDate", "startTime", start) + DateTimeParams("endDate", "endTime", end) + HoursParams(hours)
  }

  /** The keys a hold's timing parameters carry: a start, an end and hours
      exactly when each is given (and the hours are not `0`). */
  lemma HoldTimingKeys(start: Option<DateTime>, end: Option<DateTime>, hours: Option<int>)
    requires start.Some? ==> Valid(start.value)
    requires end.Some? ==> Valid(end.value)
    ensures KeysOf(HoldTimingParams(start, end, hours))
      == (if start.Some? then ["startDate", "startTime"] else [])
         + (if end.Some? then ["endDate", "endTime"] else [])
         + (if hours.Some? && hours.value != 0 then ["holdHours"] else [])
  {
    var s := DateTimeParams("startDate", "startTime", start);
    var e := DateTimeParams("endDate", "endTime", end);
    var h := HoursParams(hours);
    assert KeysOf(s) == if start.Some? then ["startDate", "startTime"] else [];
    assert KeysOf(e) == if end.Some? then ["endDate", "endTime"] else [];
    assert KeysOf(h) == if hours.Some? && hours.value != 0 then ["holdHours"] else [];
    KeysOfAppend(s, e);
    KeysOfAppend(s + e, h);
  }

  /** `control_plug`: the hold checks, then the parameters. */
  function ControlPlug(plugName: string, plugState: PlugState, start: Option<DateTime>, end: Option<DateTime>,
                       holdType: HoldType, hours: Option<int>): (r: Result<Function, Rejection>)
    requires start.Some? ==> Valid(start.value)
    requires end.Some? ==> Valid(end.value)
    ensures r.Ok? <==> OptionalWindow(start, end) && HoldPrerequisites(holdType, end, hours)
    ensures r.Ok? ==> r.value == Function("controlPlug", Some(PlugParams(plugName, plugState, start, end, holdType, hours)))
  {
    var _ :- CheckHold(start, end, holdType, hours);
    Ok(Function("controlPlug", Some(PlugParams(plugName, plugState, start, end, holdType, hours))))
  }

  /** The parameters of `control_plug`: the plug, its state and the hold
      type, then the hold's timing. */
  function PlugParams(plugName: string, plugState: PlugState, start: Option<DateTime>, end: Option<DateTime>,
                      holdType: HoldType, hours: Option<int>): (ps: seq<Member>)
    requires start.Some? ==> Valid(start.value)
    requires end.Some? ==> Valid(end.value)
    ensures |ps| >= 3 && KeysOf(ps[..3]) == ["plugName", "plugState", "holdType"]
    ensures ps[1].value == JStr(PlugStateValue(plugState)) && ps[2].value == JStr(HoldTypeValue(holdType))
    ensures ps[3..] == HoldTimingParams(start, end, hours)
  {
    var head := [Member("plugName", JStr(plugName)), Member("plugState", JStr(PlugStateValue(plugState))),
                 Member("holdType", JStr(HoldTypeValue(holdType)))];
    assert (head + HoldTimingParams(start, end, hours))[..3] == head;
    head + HoldTimingParams(start, end, hours)
  }

  /** `create_vacation`'s checks: the two temperatures in range, the
      window, and the fan's minimum on-time within an hour. */
  predicate VacationArguments(cool: int, heat: int, start: Option<DateTime>, end: Option<DateTime>,
                              fanMinOnTime: int)
    requires start.Some? ==> Valid(start.value)
    requires end.Some? ==> Valid(end.value)
  {
    MinimumCoolingTemperature <= cool <= MaximumCoolingTemperature
    && MinimumHeatingTemperature <= heat <= MaximumHeatingTemperature
    && OptionalWindow(start, end) && 0 <= fanMinOnTime <= MaximumFanMinOnTime
  }

  /** `create_vacation`: temperatures in whole degrees Fahrenheit are sent in
      tenths, and the fan's minimum on-time as a string. */
  function CreateVacation(name: string, cool: int, heat: int, start: Option<DateTime>, end: Option<DateTime>,
                          fan: FanMode, fanMinOnTime: int): (r: Result<Function, Rejection>)
    requires start.Some? ==> Valid(start.value)
    requires end.Some? ==> Valid(end.value)
    ensures r.Ok? <==> VacationArguments(cool, heat, start, end, fanMinOnTime)
    ensures !(MinimumCoolingTemperature <= cool <= MaximumCoolingTemperature) ==> r == Err(CoolOutOfRange)
    ensures r.Ok? ==> r.value == Function("createVacation", Some(
      VacationParams(name, cool, heat, start, end, fan, fanMinOnTime)))
  {
    if !(MinimumCoolingTemperature <= cool <= MaximumCoolingTemperature) then Err(CoolOutOfRange)
    else if !(MinimumHeatingTemperature <= heat <= MaximumHeatingTemperature) then Err(HeatOutOfRange)
    else if CheckOptionalWindow(start, end).Err? then Err(CheckOptionalWindow(start, end).error)
    else if !(0 <= fanMinOnTime <= MaximumFanMinOnTime) then Err(FanMinOnTimeOutOfRange)
    else Ok(Function("createVacation", Some(VacationParams(name, cool, heat, start, end, fan, fanMinOnTime))))
  }

  /** The parameters of `create_vacation`: temperatures in whole degrees
      Fahrenheit are sent in tenths, the fan's minimum on-time as a decimal
      string, then the start and end when given. */
  function VacationParams(name: string, cool: int, heat: int, start: Option<DateTime>, end: Option<DateTime>,
                          fan: FanMode, fanMinOnTime: nat): (ps: seq<Member>)
    requires start.Some? ==> Valid(start.value)
    requires end.Some? ==> Valid(end.value)
    ensures |ps| >= 5 && KeysOf(ps[..5]) == ["name", "coolHoldTemp", "heatHoldTemp", "fan", "fanMinOnTime"]
    ensures ps[1].value == JInt(10 * cool) && ps[2].value == JInt(10 * heat)
    ensures ps[4].value.JStr? && AllDigits(ps[4].value.s) && ParseNat(ps[4].value.s) == fanMinOnTime
    ensures ps[5..]
      == DateTimeParams("startDate", "startTime", start) + DateTimeParams("endDate", "endTime", end)
  {
    var head := VacationSettings(name, cool, heat, fan, fanMinOnTime);
    var tail := DateTimeParams("startDate", "startTime", start) + DateTimeParams("endDate", "endTime", end);
    assert (head + tail)[..5] == head && (head + tail)[5..] == tail;
    head + tail
  }

  /** The five settings that every vacation carries, in order. */
  function VacationSettings(name: string, cool: int, heat: int, fan: FanMode, fanMinOnTime: nat): (ps: seq<Member>)
    ensures |ps| == 5 && KeysOf(ps) == ["name", "coolHoldTemp", "heatHoldTemp", "fan", "fanMinOnTime"]
    ensures ps[1].value == JInt(10 * cool) && ps[2].value == JInt(10 * heat)
    ensures ps[4].value.JStr? && AllDigits(ps[4].value.s) && ParseNat(ps[4].value.s) == fanMinOnTime
  {
    ParseNatToString(fanMinOnTime);
    var ps := [Member("name", JStr(name)), Member("coolHoldTemp", JInt(10 * cool)),
               Member("heatHoldTemp", JInt(10 * heat)), Member("fan", JStr(FanModeValue(fan))),
               Member("fanMinOnTime", JStr(NatToString(fanMinOnTime)))];
    var keys := KeysOf(ps);
    assert keys == ["name", "coolHoldTemp", "heatHoldTemp", "fan", "fanMinOnTime"] by {
      assert keys[0] == "name" && keys[1] == "coolHoldTemp" && keys[2] == "heatHoldTemp";
      assert keys[3] == "fan" && keys[4] == "fanMinOnTime";
    }
    ps
  }

  /** `set_hold`'s checks on what to hold: each given temperature in its
      range, and either a climate or both temperatures. */
  predicate HoldTarget(cool: Option<int>, heat: Option<int>, climate: Option<string>) {
    (cool.Some? ==> MinimumCoolingTemperature <= cool.value <= MaximumCoolingTemperature)
    && (heat.Some? ==> MinimumHeatingTemperature <= heat.value <= MaximumHeatingTemperature)
    && (climate.Some? || (cool.Some? && heat.Some?))
  }

  function CheckHoldTarget(cool: Option<int>, heat: Option<int>, climate: Option<string>): (r: Result<(), Rejection>)
    ensures r.Ok? <==> HoldTarget(cool, heat, climate)
    ensures cool.None? && heat.None? && climate.None? ==> r == Err(NoHoldTarget)
  {
    if cool.Some? && !(MinimumCoolingTemperature <= cool.value <= MaximumCoolingTemperature) then Err(CoolOutOfRange)
    else if heat.Some? && !(MinimumHeatingTemperature <= heat.value <= MaximumHeatingTemperature) then
      Err(HeatOutOfRange)
    else if cool.None? && heat.None? && climate.None? then Err(NoHoldTarget)
    else if climate.None? && (cool.None? || heat.None?) then Err(TemperaturesRequired)
    else Ok(())
  }

  /** The temperature and climate keys of `set_hold`, each present when its
      argument is given. */
  function HoldTargetParams(cool: Option<int>, heat: Option<int>, climate: Option<string>): (ps: seq<Member>)
    ensures HasKey(ps, "coolHoldTemp") <==> cool.Some?
    ensures HasKey(ps, "heatHoldTemp") <==> heat.Some?
    ensures HasKey(ps, "holdClimateRef") <==> climate.Some?
  {
    var c := if cool.Some? then [Member("coolHoldTemp", JInt(10 * cool.value))] else [];
    var h := if heat.Some? then [Member("heatHoldTemp", JInt(10 * heat.value))] else [];
    var r := if climate.Some? then [Member("holdClimateRef", JStr(climate.value))] else [];
    KeysOfAppend(c, h);
    KeysOfAppend(c + h, r);
    c + h + r
  }

  /** `set_hold`: the target checks, the hold checks, then the parameters. */
  function SetHold(cool: Option<int>, heat: Option<int>, climate: Option<string>, start: Option<DateTime>,
                   end: Option<DateTime>, holdType: HoldType, hours: Option<int>): (r: Result<Function, Rejection>)
    requires start.Some? ==> Valid(start.value)
    requires end.Some? ==> Valid(end.value)
    ensures r.Ok? <==> (HoldTarget(cool, heat, climate) && OptionalWindow(start, end)
                        && HoldPrerequisites(holdType, end, hours))
    ensures r.Ok? ==> r.value == Function("setHold", Some(HoldParams(cool, heat, climate, start, end, holdType, hours)))
  {
    var _ :- CheckHoldTarget(cool, heat, climate);
    var _ :- CheckHold(start, end, holdType, hours);
    Ok(Function("setHold", Some(HoldParams(cool, heat, climate, start, end, holdType, hours))))
  }

  /** The parameters of `set_hold`: the hold type, what to hold, then the
      hold's timing. */
  function HoldParams(cool: Option<int>, heat: Option<int>, climate: Option<string>, start: Option<DateTime>,
                      end: Option<DateTime>, holdType: HoldType, hours: Option<int>): (ps: seq<Member>)
    requires start.Some? ==> Valid(start.value)
    requires end.Some? ==> Valid(end.value)
    ensures |ps| >= 1 && ps[0] == Member("holdType", JStr(HoldTypeValue(holdType)))
    ensures ps[1..] == HoldTargetParams(cool, heat, climate) + HoldTimingParams(start, end, hours)
  {
    var head := [Member("holdType", JStr(HoldTypeValue(holdType)))];
    var tail := HoldTargetParams(cool, heat, climate) + HoldTimingParams(start, end, hours);
    assert (head + tail)[1..] == tail;
    head + tail
  }

  /** An accepted hold tells the thermostat what to hold: a climate, or
      both temperatures, in tenths of a degree. */
  lemma SetHoldCarriesTarget(cool: Option<int>, heat: Option<int>, climate: Option<string>, start: Option<DateTime>,
                             end: Option<DateTime>, holdType: HoldType, hours: Option<int>)
    requires start.Some? ==> Valid(start.value)
    requires end.Some? ==> Valid(end.value)
    requires HoldTarget(cool, heat, climate)
    ensures var ps := HoldParams(cool, heat, climate, start, end, holdType, hours);
      Lookup(ps, "holdType") == Some(JStr(HoldTypeValue(holdType)))
      && (HasKey(ps, "holdClimateRef") || (HasKey(ps, "coolHoldTemp") && HasKey(ps, "heatHoldTemp")))
  {
    var ps := HoldParams(cool, heat, climate, start, end, holdType, hours);
    KeysOfAppend(HoldTargetParams(cool, heat, climate), HoldTimingParams(start, end, hours));
    KeysOfAppend(ps[..1], ps[1..]);
    assert ps == ps[..1] + ps[1..];
  }

  /** `set_occupied`: the hold checks, then the parameters. */
  function SetOccupied(occupied: bool, start: Option<DateTime>, end: Option<DateTime>, holdType: HoldType,
                       hours: Option<int>): (r: Result<Function, Rejection>)
    requires start.Some? ==> Valid(start.value)
    requires end.Some? ==> Valid(end.value)
    ensures r.Ok? <==> OptionalWindow(start, end) && HoldPrerequisites(holdType, end, hours)
    ensures r.Ok? ==> r.value.kind == "setOccupied" && r.value.params.Some?
    ensures r.Ok? ==> (r.value.params.value
                         == [Member("occupied", JBool(occupied)), Member("holdType", JStr(HoldTypeValue(holdType)))]
                            + HoldTimingParams(start, end, hours))
  {
    var _ :- CheckHold(start, end, holdType, hours);
    Ok(Function("setOccupied", Some([Member("occupied", JBool(occupied)),
      Member("holdType", JStr(HoldTypeValue(holdType)))] + HoldTimingParams(start, end, hours))))
  }

  /** `update_sensor`: the new name is at most 32 characters. */
  function UpdateSensor(name: string, deviceId: string, sensorId: string): (r: Result<Function, Rejection>)
    ensures r.Ok? <==> |name| <= MaximumSensorNameLength
    ensures r.Ok? ==> r.value == Function("updateSensor", Some(
      [Member("name", JStr(name)), Member("deviceId", JStr(deviceId)), Member("sensorId", JStr(sensorId))]))
  {
    if |name| > MaximumSensorNameLength then Err(NameTooLong)
    else Ok(Function("updateSensor", Some(
      [Member("name", JStr(name)), Member("deviceId", JStr(deviceId)), Member("sensorId", JStr(sensorId))])))
  }

  /** The body of `update_thermostats`: the selection, then the thermostat
      (its encoding) when given, then the functions when there are any. */
  function UpdateThermostatsBody(s: Selection, thermostat: Option<seq<Member>>, functions: seq<Function>)
    : (body: seq<Member>)
    ensures |body| >= 1 && body[0] == Member("selection", SelectionJson(s))
    ensures HasKey(body, "thermostat") <==> thermostat.Some?
    ensures HasKey(body, "functions") <==> functions != []
  {
    var sel := [Member("selection", SelectionJson(s))];
    var t := if thermostat.Some? then [Member("thermostat", JObject(thermostat.value))] else [];
    var fs := if functions != [] then [Member("functions", JArray(FunctionsJson(functions)))] else [];
    KeysOfAppend(sel, t);
    KeysOfAppend(sel + t, fs);
    sel + t + fs
  }

  /** The list of function dictionaries, in order. */
  function FunctionsJson(functions: seq<Function>): (js: seq<Json>)
    ensures |js| == |functions| && forall i :: 0 <= i < |functions| ==> js[i] == FunctionJson(functions[i])
  {
    seq(|functions|, i requires 0 <= i < |functions| => FunctionJson(functions[i]))
  }

  /** The functions of an update are sent in order, one dictionary each. */
  lemma UpdateCarriesFunctions(s: Selection, thermostat: Option<seq<Member>>, functions: seq<Function>)
    requires functions != []
    ensures var fs := Lookup(UpdateThermostatsBody(s, thermostat, functions), "functions");
      fs.Some? && fs.value.JArray? && |fs.value.items| == |functions|
      && forall i :: 0 <= i < |functions| ==> fs.value.items[i] == FunctionJson(functions[i])
  {
    var body := UpdateThermostatsBody(s, thermostat, functions);
    assert body[|body| - 1].key == "functions";
    assert forall j :: 0 <= j < |body| - 1 ==> body[j].key != "functions";
    LastLookup(body, "functions");
  }

  /** A key only the last member carries is found there. */
  lemma {:induction false} LastLookup(ms: seq<Member>, k: string)
    requires |ms| >= 1 && ms[|ms| - 1].key == k
    requires forall j :: 0 <= j < |ms| - 1 ==> ms[j].key != k
    ensures Lookup(ms, k) == Some(ms[|ms| - 1].value)
  {
    if |ms| > 1 {
      LastLookup(ms[1..], k);
    }
  }
}
