# Pyecobee core in Dafny

A model of the core of Pyecobee, a Python client for the ecobee thermostat API, together with proofs about it. It covers three parts:

- **The marshaller** in `pyecobee/utilities.py`:
  - `dictionary_to_object` rebuilds response and domain objects from parsed JSON, driven by each class's `__slots__`, `attribute_name_map` and `attribute_type_map`;
  - `object_to_dictionary` turns an object back into a JSON dictionary;
  - `process_http_response` sorts an HTTP answer into a decoded object or one of three exceptions.
- **The response classes** of `pyecobee/responses.py` and the older `pyecobee/response.py`: their tables, constructors and getters.
- **The service** in `pyecobee/service.py`:
  - the argument checks and request parameters of `__init__`, `authorize`, `request_tokens`, `refresh_tokens`, `update_thermostats`, the two report requests, `control_plug`, `create_vacation`, `set_hold`, `set_occupied` and `update_sensor`;
  - `__process_http_response`;
  - the token state that `authorize`, `request_tokens` and `refresh_tokens` update in place.

The modules:

| module | file | what it holds |
|---|---|---|
| `Option`, `Result`, `Json`, `Wire` | Wire.dfy | the JSON tree (members in order, as Python dicts keep them) and key lookup |
| `Text` | Text.dfy | capitalising, `str.split`, joining, and decimal rendering and parsing |
| `Registry` | Registry.dfy | a class's tables (`Descriptor`), the class namespace (`Registry`), `_class_name_map`, and keyword-argument naming |
| `Objects` | Objects.dfy | decoded values, keyword-argument construction, and property getters |
| `Decoder`, `DecodeFacts` | Decoder.dfy, DecodeFacts.dfy | `dictionary_to_object` and what a decoded object holds |
| `Encoder` | Encoder.dfy | `object_to_dictionary` |
| `RoundTrip` | RoundTrip.dfy | decoding inverts encoding |
| `Http` | Http.dfy | both versions of response processing |
| `Responses`, `LegacyResponses` | Responses.dfy, LegacyResponses.dfy | the response class tables as constants, and their properties |
| `Calendar` | Calendar.dfy | UTC date-times, instants, and date, time and interval rendering |
| `Service` | Service.dfy | argument checks and parameter builders |
| `Session` | Session.dfy | the `EcobeeService` class and its token state |
| `Findings` | Findings.dfy | the source as written where it departs from its intent |

**How the eval mechanism is modelled.** `dictionary_to_object` writes Python source text and `eval`s it. The model builds the keyword arguments directly and constructs the object with them (`Objects.Construct`). A constructor call succeeds exactly as Python's would: no repeated keyword, no unknown keyword, and no missing parameter that lacks a default. Each field's parameter is taken to be named `Registry.ArgumentName` of the field (see "## Left out").

**Loops and functions.** The decoding and encoding loops are `method`s with loop invariants:

- `Decoder.DecodeObjectLoop`, over the members of a dictionary;
- `Encoder.EncodeObjectLoop`, over the slots of an object.

Each is proved equal to the recursive function that the lemmas are stated about.

**State.** The service's token state is a class whose methods change its fields.

## Model

| member | source | states |
|---|---|---|
| Registry.ArgumentNameInjective | pyecobee/utilities.py:270-276 | when no field name ends in `_`, distinct fields get distinct keyword arguments |
| Registry.ListTypeOf | pyecobee/utilities.py:201-210 | a type written `List[e]` counts as a list type and its element name is exactly `e` |
| Registry.NameMapOfBidirectional | pyecobee/responses.py:33-34 | tables built from agreeing rows map every field to its wire key and back, and every other key to a field and back |
| Registry.DescribeWellFormed | pyecobee/responses.py:31-37 | tables built from agreeing rows are well formed: distinct fields, a bidirectional name map, a type for exactly the fields, distinct keywords, and defaults and getters only on fields |
| Registry.DescribeRow | pyecobee/responses.py:31-53 | each row's renaming, declared type, default and getter appear in the class tables |
| Registry.DescribeFields | pyecobee/responses.py:31 | the fields of a class are its slots, in slot order, followed by the base class's |
| Objects.Construct | pyecobee/responses.py:318-328 | `cls(**args)` succeeds iff no keyword repeats, every keyword is a parameter, and every parameter without a default is given; the instance holds exactly the class's fields, each set to its argument or `None` |
| Objects.ConstructStoresEveryArgument | pyecobee/responses.py:114-124 | every argument of a successful construction is stored in the field it names |
| Objects.GetAfterConstruct | pyecobee/responses.py:534-552 | a getter on a freshly built object returns the argument passed for that field, or `None` |
| Decoder.Literal | pyecobee/utilities.py:322-330 | a primitive list entry becomes the same value; an object there is an error |
| Decoder.DecodeMember | pyecobee/utilities.py:106-301 | an unknown scalar key is dropped; a known scalar key gives the argument `ArgumentName(nameMap[key])`; an unknown object or list key is an error |
| Decoder.DecodeObject | pyecobee/utilities.py:106-301 | a decoded object has the class asked for and exactly that class's fields |
| Decoder.DecodeItems | pyecobee/utilities.py:224-256 | a list of objects decodes entry by entry, in order, to instances of the element class |
| Decoder.DecodeTop | pyecobee/utilities.py:140-150 | a top-level dictionary decodes as the capitalised class and is an error if that class is unknown; a scalar body is an error |
| Decoder.DecodeObjectLoop | pyecobee/utilities.py:106-301 | the loop over a dictionary's members returns what `DecodeObject` specifies |
| DecodeFacts.UnknownScalarDropped | pyecobee/utilities.py:286-296 | a scalar under a key the class does not know changes nothing: decoding with or without it gives the same result |
| DecodeFacts.DecodeMembersSplit | pyecobee/utilities.py:106-107 | decoding members left to right composes over concatenation |
| DecodeFacts.MemberArgumentCollected | pyecobee/utilities.py:106-301 | every member that yields an argument contributes that argument to the call |
| DecodeFacts.DecodedMemberStored | pyecobee/utilities.py:266-285 | every argument a member yields ends up in the field whose keyword it is |
| DecodeFacts.DecodedScalarField | pyecobee/utilities.py:270-285 | a scalar under wire key `k` lands in field `attribute_name_map[k]` unchanged |
| DecodeFacts.DecodedObjectListField | pyecobee/utilities.py:197-256 | a list under a field declared `List[X]`, with `X` a class, becomes a list of the same length of `X` instances |
| DecodeFacts.DecodedLiteralListField | pyecobee/utilities.py:211-217 | a list whose element type names no class becomes the list of its literals |
| DecodeFacts.DecodedNestedObjectField | pyecobee/utilities.py:108-124 | a nested object lands in its field as an instance of the class `ResolveNested` gives |
| Encoder.EncodeObject | pyecobee/utilities.py:394-429 | the dictionary has a key for a field iff the field is not `None`, and every key is `attribute_name_map[field]` of such a field, never the raw name |
| Encoder.NoneFieldOmitted | pyecobee/utilities.py:399-400 | a `None` field's wire key is absent from the dictionary |
| Encoder.EncodeEntries | pyecobee/utilities.py:405-414 | a list encodes to a list of the same length and order, objects recursively and other entries verbatim |
| Wire.PutKeys | pyecobee/utilities.py:402-427 | assigning `dictionary[k]` adds `k` at the end when it is new and leaves the key order alone when it is already there |
| Wire.PutFresh | pyecobee/utilities.py:402-427 | assigning a key the dictionary does not hold appends it after the existing entries |
| Wire.PutLooksUp | pyecobee/utilities.py:402-427 | after `dictionary[k] = j`, looking up `k` gives `j` |
| Wire.PutKeepsOthers | pyecobee/utilities.py:402-427 | `dictionary[k] = j` leaves every other key's value as it was |
| Encoder.EncodeObjectLoop | pyecobee/utilities.py:394-429 | the loop over the slots returns what `EncodeObject` specifies |
| RoundTrip.RoundTripObject | pyecobee/utilities.py:97-429 | an object of a well-formed class whose fields the wire format can carry encodes without error, and decodes back to exactly itself, under Decoder.Literal's intended reading of primitive list entries |
| RoundTrip.EncodeDecodeEncode | pyecobee/utilities.py:97-429 | a dictionary the encoder wrote decodes to an object that encodes back to exactly that dictionary |
| RoundTrip.RoundTripFields | pyecobee/utilities.py:397-427 | decoding the members written for the remaining fields yields exactly the arguments that rebuild those fields |
| RoundTrip.LiteralRoundTrip | pyecobee/utilities.py:322-330 | a literal (including `None`, booleans and nested lists) read back from its verbatim copy is itself |
| RoundTrip.LiteralsRoundTrip | pyecobee/utilities.py:211-217 | a primitive list encodes and decodes back to itself, under Decoder.Literal's intended reading |
| Http.Classify | pyecobee/utilities.py:432-509 | a 200 response decodes as the response class, except that with debug logging (the utilities version) a body that decodes to a list fails, because `pretty_format()` is called on it; otherwise the body is checked for `'error'` (authorization failure from the decoded error body), then `'status'` (API failure), else it is a plain HTTP failure carrying the status code |
| Http.ListBodyOutcome | pyecobee/utilities.py:432-452 | a 200 list body comes back as the list of decoded entries from the service version, and raises from the logging version |
| Http.ObjectBodyOutcome | pyecobee/service.py:99-133 | for a non-200 dictionary body, `error` wins over `status`, and a body with neither is an HTTP failure |
| Http.AuthorizationCarriesBody | pyecobee/utilities.py:457-480 | the authorization failure carries the body's `error`, `error_description` and `error_uri` |
| Http.ApiFailureCarriesStatus | pyecobee/utilities.py:482-502 | the API failure carries the `code` and `message` of the body's `status` |
| Responses.StatusSubclassWellFormed | pyecobee/responses.py:4-27 | every subclass of `EcobeeStatusResponse` has well-formed tables and stores `status` under key `status` with type `'Status'` and a getter |
| Responses.SubclassRow | pyecobee/responses.py:106-124 | a subclass's own rows keep their renaming, type, default and getter once `status` is added |
| Responses.PlainResponsesWellFormed | pyecobee/responses.py:4-195 | the tables of the status, authorize, error and tokens responses are well formed |
| Responses.ReportResponsesWellFormed | pyecobee/responses.py:351-610 | every report and thermostat response has well-formed tables and stores `status` |
| Responses.ManagementResponsesWellFormed | pyecobee/responses.py:197-349 | every group, demand-response and hierarchy response has well-formed tables and stores `status` |
| Responses.PinRenamed | pyecobee/responses.py:33-34 | `ecobee_pin` ↔ `ecobeePin` in both directions |
| Responses.JobIdRenamed | pyecobee/responses.py:109 | `job_id` ↔ `jobId` in both directions |
| Responses.ThermostatListRenamed | pyecobee/responses.py:517 | `thermostat_list` ↔ `thermostatList` in both directions |
| Responses.ThermostatListDeclared | pyecobee/responses.py:520 | `thermostat_list` is declared `List[Thermostat]`, a list whose element class is `Thermostat` |
| Responses.SummaryListsDeclared | pyecobee/responses.py:562-563 | the revision and status lists are declared `List[six.text_type]` |
| Responses.StringListElement | pyecobee/responses.py:562 | `List[six.text_type]` is a list type whose element name is `six.text_type` |
| Responses.PrivilegesDefaulted | pyecobee/responses.py:310-328 | `privileges` is a stored field with a default, written under its own name |
| Responses.PrivilegesOmittedWhenAbsent | pyecobee/responses.py:318-327 | built without `privileges`, a hierarchy-users response holds `None` there, and its dictionary has no `privileges` key |
| LegacyResponses.LegacyResponsesWellFormed | pyecobee/response.py:60-286 | the tables of all eight older response classes are well formed |
| LegacyResponses.PinRenamed | pyecobee/response.py:63 | `ecobee_pin` ↔ `ecobeePin` in both directions |
| LegacyResponses.ReportListRenamed | pyecobee/response.py:125 | `report_list` ↔ `reportList` in both directions |
| LegacyResponses.StartDateRenamed | pyecobee/response.py:146-150 | `start_date` ↔ `startDate` in both directions |
| LegacyResponses.UpdateThermostatCarriesStatus | pyecobee/response.py:273-285 | `UpdateThermostatResponse` stores only `status`, declared `'Status'` |
| LegacyResponses.SummaryListsDeclared | pyecobee/response.py:208-210 | `revision_list` and `status_list` are declared `List[six.text_type]` |
| LegacyResponses.RuntimeReportGetters | pyecobee/response.py:142-172 | `RuntimeReportResponse` stores eight fields but has getters only for `report_list` and `status` |
| Text.Capitalize | pyecobee/utilities.py:115 | `key[:1].upper() + key[1:]`: same length, first character upper-cased, the rest unchanged |
| Text.Split | pyecobee/service.py:396 | `str.split(',')` has one more part than there are separators, and no part contains a separator |
| Text.JoinSplit | pyecobee/service.py:420-423 | joining the parts of a split gives back the string |
| Text.SplitJoin | pyecobee/service.py:420-423 | splitting a join of separator-free parts gives back the parts |
| Text.Pad2 | pyecobee/service.py:430-432 | `{:02}` gives at least two digits, exactly two below 100, and reads back as the number |
| Text.ParseNatToString | pyecobee/service.py:731 | `str(n)` of a natural number reads back as `n` |
| Calendar.InstantOrder | pyecobee/service.py:400-415 | comparing aware datetimes by instant is comparing their UTC parts in calendar order |
| Calendar.InstantRange | pyecobee/service.py:206-208 | every date-time Python can build has an instant between those of `datetime.min` and `datetime.max` |
| Calendar.LatestDateTime | pyecobee/service.py:206-208 | `datetime.max` (9999-12-31 23:59:59) is valid and its instant is the upper bound |
| Calendar.FormatDateRoundTrip | pyecobee/service.py:430-432 | a `YYYY-MM-DD` date reads back as the year, month and day |
| Calendar.FormatTimeRoundTrip | pyecobee/service.py:636-638 | an `HH:MM:SS` time is eight characters and reads back as hour, minute and second |
| Calendar.FourDigitYear | pyecobee/service.py:430-432 | a date in a four-digit year is ten characters |
| Calendar.Interval | pyecobee/service.py:433 | `hour * 12 + minute // 5` lies in [0, 287] |
| Calendar.IntervalSlot | pyecobee/service.py:433 | interval `i` is the 5-minute slot holding the time: seconds [300 i, 300 i + 300) of the day |
| Service.CheckApplicationKey | pyecobee/service.py:74-77 | the key is accepted iff it is a string of exactly 32 characters; a non-string raises the type error |
| Service.CheckResponseType | pyecobee/service.py:163-166 | accepted iff it is the string `ecobeePin` |
| Service.CheckGrantType | pyecobee/service.py:193-196 | accepted iff it is the expected grant string (`ecobeePin` or `refresh_token`) |
| Service.InServiceByInstant | pyecobee/service.py:50-51 | a date-time is in service iff its instant lies between 2008-01-02 and 2035-01-01 inclusive |
| Service.CheckReportWindow | pyecobee/service.py:400-417 | accepted iff both ends are in service, the start is strictly earlier, and fewer than 32 days lie between (at most 31 whole days) |
| Service.CheckOptionalWindow | pyecobee/service.py:600-619 | each given end is in service, and the start is strictly earlier when both are given |
| Service.CheckHold | pyecobee/service.py:600-627 | accepted iff the window is valid, `DATE_TIME` has an end and `HOLD_HOURS` has hours; each missing prerequisite raises its own error |
| Service.CheckRuntimeReport | pyecobee/service.py:479-502 | accepted iff the selection is of thermostats, names at most 25, and the window is valid |
| Service.CheckMeterReport | pyecobee/service.py:394-423 | additionally, every meter is `energy` and there is one meter per thermostat |
| Service.AcceptedMeters | pyecobee/service.py:420-423 | for a valid selection and window, the accepted meters are exactly `energy` repeated once per thermostat, comma-separated |
| Service.Thermostats | pyecobee/service.py:396 | a selection names at least one thermostat (a split never yields an empty list) |
| Service.RequestMeterReport | pyecobee/service.py:392-439 | a meter report is built iff its checks pass, with the selection, both dates and intervals, and the meters |
| Service.RequestRuntimeReport | pyecobee/service.py:477-520 | a runtime report is built iff its checks pass, with the selection, both dates and intervals, the columns and `includeSensors` |
| Service.MeterReportParams | pyecobee/service.py:429-439 | the keys are selection, startDate, startInterval, endDate, endInterval and meters, in that order |
| Service.RuntimeReportParams | pyecobee/service.py:512-520 | the keys are selection, startDate, startInterval, endDate, endInterval, columns and includeSensors, in that order |
| Service.ReportRequestWindow | pyecobee/service.py:429-437 | the rendered dates read back as the start's and end's dates, each interval is the slot of its time of day, and the span is under 32 days |
| Service.DateTimeParams | pyecobee/service.py:632-644 | a given date-time adds a date key and a time key that read back as its parts; an absent one adds nothing |
| Service.HoldTimingKeys | pyecobee/service.py:632-646 | the optional keys are startDate/startTime and endDate/endTime, each present exactly when its date-time is given, and holdHours, present exactly when the hours are given and not `0` |
| Service.ControlPlug | pyecobee/service.py:596-651 | accepted iff the hold checks pass; the `controlPlug` function carries plugName, plugState and holdType, then the timing keys |
| Service.PlugParams | pyecobee/service.py:631-646 | the first three keys are plugName, plugState and holdType, with the enumerations' wire values |
| Service.CreateVacation | pyecobee/service.py:686-751 | accepted iff cooling is in [-10, 120], heating in [45, 120], the window is valid and the fan time is in [0, 60]; cooling out of range raises first |
| Service.VacationParams | pyecobee/service.py:729-745 | temperatures are sent in tenths, and `fanMinOnTime` as a decimal string that reads back as the number, followed by the date keys |
| Service.CheckHoldTarget | pyecobee/service.py:896-916 | accepted iff each given temperature is in range and there is a climate or both temperatures; nothing at all given raises its own error |
| Service.SetHold | pyecobee/service.py:896-972 | accepted iff the target and hold checks pass; the `setHold` function carries holdType, then the target keys, then the timing keys |
| Service.HoldTargetParams | pyecobee/service.py:948-954 | coolHoldTemp, heatHoldTemp and holdClimateRef are each present iff the argument is given |
| Service.HoldParams | pyecobee/service.py:948-967 | holdType comes first, then the target keys, then the timing keys |
| Service.SetHoldCarriesTarget | pyecobee/service.py:912-916 | an accepted hold always tells the thermostat a climate or both temperatures |
| Service.SetOccupied | pyecobee/service.py:1008-1062 | accepted iff the hold checks pass; the `setOccupied` function carries occupied and holdType, then the timing keys |
| Service.UpdateSensor | pyecobee/service.py:1088-1104 | accepted iff the name has at most 32 characters; the `updateSensor` function carries name, deviceId and sensorId |
| Service.FunctionJson | pyecobee/utilities.py:394-427 | a `Function` encodes to its `type`, plus `params` exactly when it has parameters |
| Service.UpdateThermostatsBody | pyecobee/service.py:347-352 | the body starts with the selection; it has `thermostat` iff one is given and `functions` iff the list is non-empty |
| Service.UpdateCarriesFunctions | pyecobee/service.py:350-352 | `functions` holds every function's encoding, in order |
| Session.AuthorizeQuery | pyecobee/service.py:168-173 | `authorize` sends client_id, response_type `ecobeePin` and the scope's wire value |
| Session.TokensQuery | pyecobee/service.py:199-204 | a token request sends client_id, the code and the grant type |
| Session.EcobeeService.constructor | pyecobee/service.py:79-86 | every field holds its argument |
| Session.EcobeeService.Create | pyecobee/service.py:58-86 | a service is created iff the application key is a 32-character string, with every field holding its argument; otherwise the key check's error is raised |
| Session.EcobeeService.Authorize | pyecobee/service.py:146-176 | a wrong response type raises before anything is sent; otherwise the authorization token becomes the response's `code`, and every other field is unchanged |
| Session.EcobeeService.StoreTokens | pyecobee/service.py:205-209 | the access token is stored first. Its expiry is now + `expires_in`, unless `expires_in` is not a number (TypeError) or the sum is out of `datetime`'s range (OverflowError); either way nothing else changes. Then the refresh token is stored, and an expiry of now + 365 days unless that overflows |
| Session.EcobeeService.RequestTokens | pyecobee/service.py:178-210 | a wrong grant type changes nothing; otherwise the authorization token is sent as the code and the new tokens and expiries are stored as `StoreTokens` states, including both overflow failures |
| Session.FarExpiryOverflows | pyecobee/service.py:206 | an `expires_in` of 10^12 seconds raises OverflowError from every representable date-time |
| Session.RefreshExpiryFits | pyecobee/service.py:208 | the refresh expiry a year ahead cannot overflow before the year 9999 |
| Session.EcobeeService.RefreshTokens | pyecobee/service.py:212-245 | the same with grant `refresh_token`, sending the refresh token as the code, with the same failures |
| Findings.FalseAndNullMisread | pyecobee/utilities.py:322-330 | as written, `false` in a primitive list reads back as `True` and `null` as the string `'None'` |
| Findings.UnknownKeyFirst | pyecobee/utilities.py:266-301 | as written, an unknown key before a known one leaves an empty argument, so the generated call does not parse |
| Findings.ArgumentsAsWritten | pyecobee/utilities.py:266-301 | a dropped member that is not the object's last prevents the call; otherwise the call gets the intended arguments |
| Findings.ZeroCoolingDropped | pyecobee/service.py:948-954 | as written, a 0°F cooling target that passes the checks is left out of the `setHold` parameters |

Some definitions have no contract of their own worth a row. The lemmas named beside them state what they mean:

- `Registry.ArgumentName`: `Registry.ArgumentNameInjective`, `DecodeFacts.DecodedScalarField`;
- `Registry.ElementName`: `Registry.ListTypeOf`;
- `Registry.ResolveNested`: `DecodeFacts.DecodedNestedObjectField`;
- `Objects.Get`: `Objects.GetAfterConstruct`;
- `Decoder.ScalarValue`: `DecodeFacts.DecodedScalarField`;
- `Decoder.ListElementClass`: `DecodeFacts.DecodedObjectListField`, `DecodeFacts.DecodedLiteralListField`;
- `Encoder.Verbatim`, `Encoder.EncodeAttribute`: `Encoder.EncodeEntries`, `RoundTrip.RoundTripObject`;
- `Http.PyIn`: `Http.ObjectBodyOutcome`;
- `Service.HoursParams`: `Service.HoldTimingKeys`;
- `Session.ResponseObject`, `Session.Seconds`, `Session.Expiry`: `Session.EcobeeService.StoreTokens`, `Session.FarExpiryOverflows`, `Session.RefreshExpiryFits`.

## Left out

- Session.EcobeeService, Http.ListBodyOutcome, Http.ObjectBodyOutcome, Service.RequestMeterReport, Service.RequestRuntimeReport and Service.UpdateThermostatsBody assume a `utilities` module that the service can use. As written, `pyecobee/service.py` calls the module-level functions `utilities.dictionary_to_object` (lines 101, 107, 119) and `utilities.object_to_dictionary` (lines 271, 299, 347-351, 429, 512). `pyecobee/utilities.py` defines both only as class methods of `Utilities` (lines 91-97, 393-394), so each of these calls raises AttributeError. Its top-level class lookup (`pyecobee/utilities.py:143-147`) also sees only the `Ecobee*Response` classes it imports (lines 72-86), not `AuthorizeResponse`, `ErrorResponse` or `TokensResponse` from `pyecobee/response.py`. The model passes the service a registry that holds those older classes, as a matching older `utilities` module would.
- EcobeeService's property getters and setters (`pyecobee/service.py:1107-1165`) are plain reads and writes of the fields. The `application_key` setter skips `__init__`'s checks, so `Session.EcobeeService.Valid` holds only for services whose key no setter has replaced.
- Wire.Json: an object may repeat a key, which `json.loads` never produces, since it keeps the last value for a key. Response bodies are taken to have distinct keys. On a repeated key, `Wire.Lookup` reads the first member, and decoding sees every member.
- Session.EcobeeService.StoreTokens: an expiry is an instant in whole seconds. The OverflowError of `now_utc + timedelta(...)` is modelled (`Session.Expiry`), but the microseconds of `datetime.now` are not.
- HTTP transport, `make_http_request`, `json.dumps`, timeouts and logging. Response handling takes the status code and the parsed body as inputs. The token methods return the query parameters they would send.
- Python type checks (`isinstance` against `str`, `datetime`, `HoldType`, `Selection`, `numbers.Real` and so on). Dafny's types enforce them, except for the application key, the response type and the grant type, which are modelled as dynamically typed values because their checks are the point of the model.
- Floats: temperatures are whole degrees, so `int(t * 10)` is `10 * t`. A float in a primitive list, and a float's `format()` text, are not modelled.
- Timezones: date-times are given by their UTC parts, and `datetime.now(pytz.utc)` is the parameter `now`, in seconds. The two report requests convert to UTC themselves (`pyecobee/service.py:426-427`, `509-510`). `control_plug`, `create_vacation`, `set_hold` and `set_occupied` format the wall-clock parts they are given (`pyecobee/service.py:631-644`, `729-745`), so for them the model covers only date-times already in UTC.
- Calendar.DateTime: has no microsecond field. Microseconds appear in no rendered date or time. A comparison that only a microsecond difference would decide (a start earlier than its end by less than a second) is not modelled.
- The generated-source-then-`eval` mechanism: indentation, separators and the shared `parent_classes=[]` default are replaced by direct construction with the class context passed down. Only the two consequences under "## Findings" are modelled as written.
- The domain classes under `pyecobee/objects/` are not part of this model. The decoder, encoder and round trip are stated for any registry of class tables.
- `object_.slots()` is not defined in any file of this model. It is read as all of a class's fields, own slots first, then inherited ones.
- Registry.ArgumentName: the builtin names are a fixed list of Python's keywords and builtin functions. The source asks the interpreter's `builtins` module, which also holds the exception and warning class names, `breakpoint`, `aiter`, `anext`, `Ellipsis`, `NotImplemented`, `__import__` and the dunder names such as `__name__`. Those names are not in the list, and no field of the response classes is named like any of them.
- Objects.Construct: assumes that the constructor parameter for field `f` is named `Registry.ArgumentName(f)`: the field's own name, with `_` appended when it is a builtin or keyword name. The class tables do not record parameter names, and the source does not keep to one rule. `Function(type=...)` is called with `type` throughout `pyecobee/service.py` (lines 560, 650, 971 and others). Against such a constructor, the `type_=` keyword that `pyecobee/utilities.py:272-282` writes for a scalar `type` member raises TypeError. Nested objects and lists are passed under the plain field name (`pyecobee/utilities.py:131-136`, `178-180`), and the decoder does the same.
- Decoder.DecodeMember: a nested object or list under a key the class does not know is an error, as the `KeyError` in the source is. Which exception the source raises there is not modelled.
- Decoder.Literal: follows the intended reading of primitive list entries. The source's reading is `Findings.LiteralAsWritten`, under which `false` and `null` do not round-trip (`Findings.FalseAndNullMisread`).
- Decoder.DecodeItems: an entry of a list of class instances that is not a JSON object is an error here. The source writes `Klass(` followed by the entry's own text (`pyecobee/utilities.py:224-239`), so the entry becomes a positional constructor argument: `"groups": [5]` builds `Group(int('5'))`. Decoder.DecodeTop shares this for a 200 list body, whose entries are built with the response class (`pyecobee/utilities.py:218-221`). Whether such a call succeeds depends on the constructor's positional parameters, which the class tables do not record.
- Decoder.Literal and Findings.LiteralAsWritten: a JSON object among primitive list entries is an error in both. The source writes the object's members into the list display as if they belonged to the enclosing class. An empty object adds nothing to the list. Other objects write `name=value` text or stray separators inside the list, which do not parse, except a lone unknown key, which also adds nothing. These outcomes are not modelled.
- `pyecobee/enumerations.py`: only `HoldType`, `PlugState`, `FanMode` and `Scope` are copied, as datatypes with their wire values. `SelectionType` is used only as the string `'thermostats'`.
- Service.SelectionJson and Service.FunctionJson encode only the fields the service sets. The full `Selection` and `Function` classes belong to `pyecobee/objects/`.
- Service.UpdateThermostatsBody: `if thermostat:` is read as "a thermostat is given"; the truthiness of a `Thermostat` instance is not modelled.
- Service.HoldTargetParams: follows the intended reading (`is not None`), so a `0` temperature is sent. The source tests truthiness (`pyecobee/service.py:948-954`), which drops it; that reading is `Findings.ZeroCoolingDropped`.
- Service.SetHold: builds its parameters with Service.HoldTargetParams, so it too sends a `0` temperature or an empty climate name that the source drops.
- Service.HoursParams: keeps the source's truthiness test, so `hold_hours = 0` is omitted from the parameters even though the checks accept it.
- Text.Capitalize: upper-cases with the ASCII mapping. Python's `str.upper` follows Unicode and can change a string's length (`'ß'.upper() == 'SS'`), so "same length" holds for the ASCII keys the ecobee wire format uses, not for every key.
- Calendar.FormatDate, Calendar.FormatTime and Calendar.Interval assume valid date-times, since Python cannot build any other.
- `__repr__`, `__str__` and `pretty_format`, which only produce text for display. The one effect of `pretty_format()` that is modelled is the failure when the utilities version calls it on a list (Http.Classify with `logs`). Its text is not modelled.
- RoundTrip.RoundTripObject: states decode after encode. Encode after decode is proved only for dictionaries the encoder wrote (RoundTrip.EncodeDecodeEncode). It fails for other dictionaries, because decoding drops unknown scalar keys, turns `null` members into `None` fields that the encoder then omits, and encoding writes the keys in slot order, not in the body's order.
- The interactive test script under `tests/`, `pyecobee/exceptions.py`, `pyecobee/__init__.py` and `setup.py`.

## Findings

| source | as written | input that shows it | evidently intended | confidence | as-written member | corrected member |
|---|---|---|---|---|---|---|
| pyecobee/utilities.py:323-324 | a boolean in a primitive list is written as `bool('False')`, which is `True`; `null` is written as the string `'None'` | the list `[false, null]` under a `List[six.text_type]` field | the entries read back as `False` and `None` | not executed | Findings.FalseAndNullMisread | RoundTrip.LiteralRoundTrip |
| pyecobee/utilities.py:286-301 | an unknown scalar key is logged, but its indentation and `,\n` separator are still written, leaving an empty argument | a `Status` body `{"extra": 1, "code": 0}` | the unknown key is dropped and `Status(code=0)` is built | not executed | Findings.UnknownKeyFirst | DecodeFacts.UnknownScalarDropped |
| pyecobee/service.py:949-954 | `coolHoldTemp`, `heatHoldTemp` and `holdClimateRef` are added only when truthy, although the checks test for `None` | `set_hold(cool_hold_temp=0, heat_hold_temp=50)` | both temperatures the checks insisted on are sent | not executed | Findings.ZeroCoolingDropped | Service.SetHoldCarriesTarget |
