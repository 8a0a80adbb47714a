# Garden environment sensor — verified model

This project is a Dafny model of the decision logic in the garden environment
sensor system. ESP32 nodes read temperature, humidity, light and soil
moisture. They post readings to a small Python web server, which appends them
to a CSV log, serves the latest reading and its history, and keeps a JSON
configuration that the node fetches back. The model covers the following parts:

- **Flask server** (`routes.py`, `sensor_utils.py`, `shared.py`):
  - validating a posted reading field by field, stamping it with the server's
    UTC clock, and appending it to the log;
  - reading the log back: rows that do not parse are skipped, and the rest is
    stably sorted by the timestamp string;
  - choosing the latest log file;
  - the response envelope;
  - normalising the configuration file;
  - the configuration POST: per-key validators, the legacy `polling_interval`
    conversion, and the `config_version` bump.
- **The two older servers** (`flask-dashboard.py`, `fastapi.py`):
  - their append rule, which writes the header only when the file does not
    exist;
  - their 12-hour timestamps;
  - their history parsing, where a short row raises.
- **The log filter script** (`log-filter.py`) and the **dashboard helpers**
  (`convertToCSV`, `mapData`, `calcAvg`, the range buttons, and the empty-data
  guard of the `initDashboard` that takes effect).
- **Firmware** (`main.cpp`, `config.cpp`, `VEML7700_Enhanced.h`,
  `deep-sleep.cpp`, `opt3001.cpp`):
  - the moisture mappings built on Arduino `map`/`constrain`;
  - the best-RSSI network choice, and the priority-order join;
  - the accept/apply rules of `fetchConfig`;
  - NVS load with the one-shot ms→s migration, and save;
  - the VEML7700 gain-zone state machine;
  - the boot counter;
  - the wrap-safe `millis()` polling check;
  - the key-by-key configuration copy of the OPT3001 variant.

Files are `map<path, seq<Row>>` held by a `Disk` object; a row is a
`seq<string>` of comma-free fields. Everything the code takes from the
platform is passed in as a parameter:

- Python's `float()`/`int()` on strings, `str(round(x, n))` and `str(e)`
  (a `Runtime` bundle);
- `datetime.fromisoformat` and `strptime`;
- JavaScript number-to-string;
- WiFi scan results and join outcomes;
- HTTP status codes and decoded documents;
- ArduinoJson conversions;
- the lux sensor's successive readings.

C integer types are written out as bounded subset types, and unsigned and
signed wrap-around is explicit (`Wrap32`, `WrapI32`).

The Flask POST handler assigns `latest_data` inside the function without a
`global` declaration (`routes.py:74`). The shared slot that the GET handler
reads therefore never changes, and GET keeps answering "No data received yet".
The model keeps this behaviour (`Routes.Server.PostSensorData` leaves
`latestData` alone; `Routes.PostThenGet` shows the consequence).

The sensor POST's refusals and a rejected configuration value are written as
`api_response("error", message, 400)`. There the code is the third positional
argument, `data`, so these replies go out as HTTP 200 with the code in `data`.
The model answers them this way (`Routes.ErrorPositional`; see "## Findings").
The calls that pass `http_status=` by keyword answer with that status
(`Routes.ErrorReply`).

## Model

| member | source | states |
|---|---|---|
| SensorUtils.ValidateSensorData | dashboard/flask/sensor_utils.py:9-15 | true exactly when temp_f, humidity, lux and moisture are all keys of the input; the values are never inspected |
| SensorUtils.AllPresent | dashboard/flask/sensor_utils.py:11-14 | the loop returns true iff every listed key is present |
| SensorUtils.LogNames | dashboard/flask/sensor_utils.py:30-33 | a name is kept iff it is in the directory listing and matches `raw_sensorlog_*.csv` |
| SensorUtils.Reverse | dashboard/flask/sensor_utils.py:36 | the reverse of a sequence: same length, element i is element n-1-i |
| SensorUtils.FirstNonEmpty | dashboard/flask/sensor_utils.py:36-42 | the scan stops at the first file with size > 0; every file before it is missing or empty |
| SensorUtils.ReverseMembers | dashboard/flask/sensor_utils.py:36 | reversing keeps the same members |
| SensorUtils.ReverseDescending | dashboard/flask/sensor_utils.py:36 | reversing an ascending list gives a descending one |
| SensorUtils.DescendingNames | dashboard/flask/sensor_utils.py:30-36 | `sorted(files, reverse=True)` holds exactly the matching names, greatest first |
| SensorUtils.ScanPicksGreatest | dashboard/flask/sensor_utils.py:36-44 | the scan finds a non-empty file iff one exists, and it is the greatest non-empty name; the fallback is the greatest name overall |
| SensorUtils.GetLatestLogfileSpec | dashboard/flask/sensor_utils.py:29-44 | a missing `LOG_DIR` makes `os.listdir` raise an `OSError` out of the call, and nothing else raises; otherwise None iff no name matches the pattern, and else the path of the greatest non-empty matching name, or of the greatest matching name when all are empty |
| SensorUtils.LatestListedSpec | dashboard/flask/sensor_utils.py:30-44 | after a successful listing: None iff no name matches, else the path of the latest matching file as above |
| SensorUtils.LogRowColumns | dashboard/flask/sensor_utils.py:52-61 | the row read back under the header has the timestamp unchanged, temp_f and humidity rounded to 2 places, lux and moisture rounded to 1 |
| SensorUtils.WriteCsvLog | dashboard/flask/sensor_utils.py:46-61 | on success the file gets one data row, preceded by the header iff it was absent or zero-length; an I/O error is raised, and it leaves the disk unchanged when it comes before the open and otherwise leaves `FailedAppend`: the old rows followed by the first rows of the header-and-row append |
| SensorUtils.LogAppendShape | dashboard/flask/sensor_utils.py:49-61 | the new file is the old rows, then the header only if it was absent or empty, then the row; other files are untouched |
| SensorUtils.WritesFromFresh | dashboard/flask/sensor_utils.py:49-61 | N writes to a fresh or empty path give one header followed by the N rows in call order |
| SensorUtils.AppendAfterHeader | dashboard/flask/sensor_utils.py:49-61 | appending to a file that already has the header adds only the row |
| SensorUtils.ReadCsvDicts | dashboard/flask/sensor_utils.py:65-73 | `[]` for no path, an empty path, or a missing or empty file; otherwise the DictReader records of the file: one per non-blank data row, with the cells of a long row beyond the header under the key None |
| SensorUtils.ParseLogRowSpec | dashboard/flask/sensor_utils.py:86-104 | a row is kept iff its timestamp ends in Z or is ISO and all four numbers convert; timestamp and display_time are the stored string, and moisture defaults to 0 when absent |
| SensorUtils.LoadLogData | dashboard/flask/sensor_utils.py:76-109 | `([], None)` for a missing or empty log; `([], str(e))` when reading raises; otherwise the parsed rows sorted by timestamp. The result does not depend on `filter_range` or `day` |
| SensorUtils.KeptAppend | dashboard/flask/sensor_utils.py:85-104 | the kept rows of a concatenation are the kept rows of each part, in order |
| SensorUtils.KeptSingle | dashboard/flask/sensor_utils.py:85-104 | one row yields its parsed entry, or nothing |
| SensorUtils.CorruptRowSkipped | dashboard/flask/sensor_utils.py:103-104 | a malformed row is dropped and the rows around it are still returned |
| SensorUtils.KeptFromRows | dashboard/flask/sensor_utils.py:85-104 | every returned entry comes from some row, and every row that parses is returned |
| SensorUtils.LoadedEntriesSpec | dashboard/flask/sensor_utils.py:106 | the result is sorted by timestamp, is a permutation of the kept rows, and keeps file order among equal timestamps |
| SensorUtils.FullRowParses | dashboard/flask/sensor_utils.py:86-102 | a complete row with an accepted timestamp and convertible numbers parses to exactly those values, whatever extra cells it carries |
| SensorUtils.WrittenRowParses | dashboard/flask/sensor_utils.py:55-61 | a row written by `write_csv_log` reads back as the rounded reading |
| SensorUtils.KeptAll | dashboard/flask/sensor_utils.py:85-104 | when every row parses, nothing is dropped and order is kept |
| SensorUtils.WrittenRowsParse | dashboard/flask/sensor_utils.py:55-61 | each written row reads back, position by position |
| SensorUtils.WrittenRowsLoad | dashboard/flask/sensor_utils.py:85-104 | the rows written for N readings load back as the N rounded readings in order |
| SensorUtils.WrittenLogLoads | dashboard/flask/sensor_utils.py:46-109 | write then load: a log built by N writes on a fresh path loads as the N rounded readings, sorted by timestamp |
| Shared.ApiResponse | dashboard/flask/shared.py:8-12 | the body always has `status`; `message` is present iff the message is truthy, and `data` iff it is not None; no other keys; the HTTP status is the one given, 200 by default |
| Shared.ApiResponseDefaults | dashboard/flask/shared.py:8-12 | with no arguments the envelope is `{"status": "ok"}` with HTTP 200 |
| Shared.LoadConfig | dashboard/flask/shared.py:14-38 | returns the normalised configuration, or the exception the file or a conversion raises |
| Shared.NormalizeSectionSpec | dashboard/flask/shared.py:20-36 | a section succeeds iff it is absent, or is an object whose entry converts or fails with ValueError; only that entry changes, becoming an int or the default; an absent section is not created |
| Shared.NoFileIsEmpty | dashboard/flask/shared.py:15-16 | a missing config file loads as `{}` |
| Shared.SettledSectionUnchanged | dashboard/flask/shared.py:20-36 | a section whose entry is already an int passes through unchanged |
| Shared.NormalizedIsSettled | dashboard/flask/shared.py:20-36 | after loading, every present port and polling_interval is an int |
| Shared.SettledLoadsUnchanged | dashboard/flask/shared.py:14-38 | a settled configuration loads back unchanged |
| Shared.NormalizeIdempotent | dashboard/flask/shared.py:14-38 | normalising a normalised configuration changes nothing |
| Routes.ErrorPositional | dashboard/flask/routes.py:55 | `api_response("error", msg, 400)` as written: HTTP 200, and the code lands in `data` |
| Routes.PositionalCodeIsNotStatus | dashboard/flask/routes.py:55 | the Content-Type rejection answers 200 with `data: 400`, not the intended 400 |
| Routes.ErrorReply | dashboard/flask/shared.py:8-12 | the intended error reply: the given HTTP status, status "error", message present iff non-empty, no data |
| Routes.Num | dashboard/flask/routes.py:63-71 | absent, None or blank gives ValueError "<field> is missing or null"; a value on which `float()` raises ValueError or TypeError gives ValueError "<field> must be numeric"; an int beyond the double range passes `float()`'s OverflowError through; otherwise the float |
| Routes.BuildReading | dashboard/flask/routes.py:73-83 | fields are checked in order temp_f, humidity, lux, moisture and the first failure's exception is returned; on success the record has the server UTC stamp and the four floats |
| Routes.ClientTimestampIgnored | dashboard/flask/routes.py:74-75 | the client's `timestamp` key has no influence on the record |
| Routes.ReadingStamp | dashboard/flask/routes.py:75 | the stamp has the `YYYY-MM-DDTHH:MM:SSZ` shape and ends in Z |
| Routes.PostOutcome | dashboard/flask/routes.py:52-105 | every refusal answers HTTP 200 with the code as `data`: a non-JSON request and an empty or falsy body carry data 400, a non-object body carries data 500 with "internal error", a field's ValueError carries data 400 with its message, any other exception (an OverflowError) carries data 500 with "internal error"; otherwise the record |
| Routes.FieldRejection | dashboard/flask/routes.py:73-83 | when only one field fails with a ValueError, the POST answers HTTP 200 with data 400 and that field's message, which starts with the field's name; when it fails with an OverflowError, HTTP 200 with data 500 and "internal error" |
| Routes.HugeIntIsInternalError | dashboard/flask/routes.py:63-105 | a temp_f that is an int beyond the double range makes `float()` raise OverflowError, and the POST answers HTTP 200 with data 500 and "internal error" |
| Routes.SensorViewOfReading | dashboard/flask/routes.py:34-44 | the GET view of a stored reading has the ISO timestamp without Z, the short display time and the four floats |
| Routes.Check | dashboard/flask/routes.py:126-157 | a range rule yields an int within its bounds or a 400 message; a string rule always succeeds |
| Routes.ClampSleep | dashboard/flask/routes.py:138-142 | values above 6000 are floor-divided by 1000, then the result is clamped to 1..6000 |
| Routes.ValidateConfig | dashboard/flask/routes.py:133-157 | the validator loop's outcome: accept with the validated dict, reject with the first failing key's message, or raise |
| Routes.ValidateFromFits | dashboard/flask/routes.py:147-157 | every accepted value fits its rule |
| Routes.ValidatorKeySet | dashboard/flask/routes.py:125-131 | the validator keys are sleep, ssid, password, mqtt_broker and mqtt_port |
| Routes.AcceptedInRange | dashboard/flask/routes.py:125-157 | an accepted dict holds only validator keys; sleep is in 1..6000, mqtt_port in 1..65535, and the rest are strings |
| Routes.ValidatorKeysDistinct | dashboard/flask/routes.py:125-131 | no key appears twice in the validator table |
| Routes.ValidateFromObject | dashboard/flask/routes.py:147-157 | for an object body: never raises; accepted iff every present key passes; the first failing key in table order decides the 400 message; accepted values are the validators' outputs |
| Routes.PollingIntervalFallback | dashboard/flask/routes.py:136-144 | without `sleep`, the output has `sleep` iff `polling_interval` is present and converts, and then it equals the clamped conversion |
| Routes.ValidateFromKeys | dashboard/flask/routes.py:147-157 | accepted keys are the ones already validated or validator keys present in the body |
| Routes.UpdatedConfigSpec | dashboard/flask/routes.py:160-168 | with nothing validated the config is unchanged; otherwise the validated keys are merged, config_version becomes old+1, and updated_at is the UTC stamp; every other key is untouched |
| Routes.ConfigRejection | dashboard/flask/routes.py:147-157 | the first failing key in validator order answers HTTP 200 with data 400 and its message, and nothing is saved |
| Routes.ConfigVersionBump | dashboard/flask/routes.py:159-173 | a successful POST bumps the version by exactly 1 and sets updated_at iff something validated; keys outside the table are never merged |
| Routes.SavedConfigReloads | dashboard/flask/routes.py:159-173 | the saved configuration loads back unchanged |
| Routes.EntriesJson | dashboard/flask/routes.py:209 | one JSON object per history entry, in order |
| Routes.Server.constructor | dashboard/flask/shared.py:6 | a fresh server has no latest reading and has sent nothing |
| Routes.Server.PostSensorData | dashboard/flask/routes.py:52-105 | a rejected request answers its HTTP 200 refusal and causes no MQTT, ntfy or CSV effect; otherwise MQTT and ntfy are attempted, their failures are swallowed, a CSV failure answers HTTP 200 with data 500 and "Failed to write log" and leaves the log as `FailedAppend` says (unchanged when the open fails), and success answers ok with received=True; `latest_data` never changes |
| Routes.Server.GetSensorData | dashboard/flask/routes.py:30-46 | with no stored reading the answer is "No data received yet" with HTTP 200 |
| Routes.Server.GetConfig | dashboard/flask/routes.py:115-116 | GET returns the normalised configuration in the envelope |
| Routes.Server.PostConfig | dashboard/flask/routes.py:118-177 | a refused or failing request before the save answers as `ConfigPostResult` says and leaves the file unchanged; otherwise `save_config` runs: on success the new configuration is stored and returned, and when it raises the reply is HTTP 500 with the exception's text and the file is untouched (failed `open`) or left undecodable (failed `json.dump`) |
| Shared.AfterSaveLoads | dashboard/flask/shared.py:40-42 | after a successful save a settled config loads back unchanged; after a failed `open` the next load sees the old file; after a failed `json.dump` every later load raises |
| Routes.Server.GetHistory | dashboard/flask/routes.py:188-209 | a read error answers 404 with its text; otherwise HTTP 200 with the loaded entries, or an empty list for a missing log |
| Routes.PostThenGet | dashboard/flask/routes.py:31-32 | after any POST, GET still answers "No data received yet", because line 74 binds a local name |
| Python.ToFloat | dashboard/flask/routes.py:68-71 | `float()` on JSON values: floats and ints within the double range convert; an int of magnitude at least 2^1024 − 2^970 raises OverflowError; None, lists and dicts raise TypeError; failures are ValueError, TypeError or OverflowError |
| Python.ToInt | dashboard/flask/routes.py:126 | `int()` on JSON values: ints are kept; None, lists and dicts raise TypeError; failures are ValueError or TypeError |
| Python.Trunc | dashboard/flask/routes.py:126 | `int()` of a float truncates toward zero: 0 for −1 < x < 1, the floor for x ≥ 0, and for x < 0 the least integer at or above x |
| Python.TruncOdd | dashboard/flask/routes.py:126 | truncation is symmetric about zero, `int(-x) == -int(x)`, so `int(-2.5)` is −2 and not the floor −3 |
| Python.Subscript | dashboard/flask/routes.py:150 | `d[k]` succeeds iff d is a dict holding k; a missing key raises KeyError, and a non-dict raises TypeError |
| CsvFile.Disk.constructor | dashboard/flask/sensor_utils.py:51 | a disk holds exactly the given files |
| CsvFile.LogHeaderDistinct | dashboard/flask/sensor_utils.py:52 | the five log columns are distinct |
| CsvFile.LogHeaderRow | dashboard/flask/sensor_utils.py:52-61 | a five-field row read under the log header maps each column to its field, with no `restkey` entry |
| CsvFile.RowDictAt | dashboard/flask/sensor_utils.py:70-72 | DictReader gives each header column its field, or None when the row is short |
| CsvFile.RowDictKeys | dashboard/flask/sensor_utils.py:70-72 | DictReader's string keys are exactly the header columns; the key None (the default `restkey`) is present iff the row is longer than the header, and holds the cells past the header's end |
| CsvFile.RecordsOfRows | dashboard/flask/sensor_utils.py:70-72 | one dict per non-empty row, in order |
| CsvFile.RecordsAppend | dashboard/flask/sensor_utils.py:70-72 | reading a concatenation of rows reads each part in turn |
| CsvFile.FailedAppendShape | dashboard/flask/sensor_utils.py:46-61 | an append that fails before `open` leaves every file as it was; one that fails after it leaves the log existing, its old rows a prefix of the new content, and the new content a prefix of the full append (all of it once every row was written); no other file changes |
| StableSort.SortFacts | dashboard/flask/sensor_utils.py:106 | `list.sort(key=...)` gives a sorted permutation |
| StableSort.SortStable | dashboard/flask/sensor_utils.py:106 | entries with equal keys keep their original order |
| Clock.IsoZShape | dashboard/flask/routes.py:75 | `%Y-%m-%dT%H:%M:%SZ` yields 20 characters with separators and digits in place, ending in Z |
| Clock.Local12Shape | dashboard/flask/flask-dashboard.py:53 | `%Y-%m-%d %I:%M:%S %p` yields 22 characters ending in AM before noon and PM after |
| Text.Without | dashboard/flask/routes.py:35 | `replace("Z", "")` leaves no Z and changes nothing in a string without one |
| Clock.IsoZWithoutZ | dashboard/flask/routes.py:35 | removing the Z from the UTC stamp gives the plain ISO form |
| Clock.Hour12 | dashboard/flask/flask-dashboard.py:53 | `%I` is in 1..12 and agrees with the hour modulo 12 |
| LegacyLog.AppendIfAbsentShape | dashboard/flask/flask-dashboard.py:48-60 | a new file gets the header and the row; an existing file, even an empty one, gets only the row; other files are untouched |
| LegacyLog.EmptyFileSwallowsFirstRow | dashboard/flask/flask-dashboard.py:48-52 | appending to an existing empty file writes no header, so DictReader takes the first data row as the header and reads no records |
| LegacyLog.AppendRow | dashboard/flask/flask-dashboard.py:48-60 | the disk becomes the old files with the header-if-absent append applied |
| LegacyLog.PrependNone | dashboard/flask/flask-dashboard.py:73-85 | prepending no entries leaves a history result unchanged |
| LegacyLog.PrependTwice | dashboard/flask/flask-dashboard.py:73-85 | prepending twice is prepending the concatenation |
| LegacyLog.ReadHistory | dashboard/flask/flask-dashboard.py:68-86 | the loop yields the rows' entries in file order, stops at the first row that raises outside the caught exceptions, and skips the rest |
| LegacyLog.HistoryAppend | dashboard/flask/flask-dashboard.py:73-85 | history of a concatenation is the first part's entries followed by the second part's, unless the first part raised |
| LegacyLog.SkippedRow | dashboard/flask/flask-dashboard.py:84-85 | a row failing with ValueError or KeyError is skipped and the rest is still read |
| LegacyLog.CrashingRow | dashboard/flask/flask-dashboard.py:74-85 | a row whose conversion raises TypeError (a short row's None fields) makes the whole history raise |
| LegacyLog.WrittenRowReads | dashboard/flask/flask-dashboard.py:53-83 | a row written by POST reads back with the 12-hour display stamp and the rounded values |
| LegacyLog.RowFields | dashboard/flask/flask-dashboard.py:79-82 | the fields of a full five-column row convert to their parsed floats |
| LegacyLog.ParseRowKeeps | dashboard/flask/flask-dashboard.py:75-83 | a row with a parseable stamp and four convertible numbers is kept with the reformatted stamp |
| LegacyLog.FreshLogReadsBack | dashboard/flask/flask-dashboard.py:48-86 | write then read: the first POST to a missing log makes history return exactly that reading |
| LegacyLog.HeaderAndRow | dashboard/flask/flask-dashboard.py:72-73 | a file of the header and one row reads as one record |
| LegacyLog.OneRowHistory | dashboard/flask/flask-dashboard.py:73-83 | a single good row gives a one-entry history |
| LegacyLog.HistoryJson | dashboard/flask/flask-dashboard.py:86 | one JSON object per entry, in file order; a raised error passes through |
| LegacyFlask.ParseReading | dashboard/flask/flask-dashboard.py:41-46 | succeeds iff all four keys convert with `float()`; otherwise the first failing key's exception, in key order; a non-object body raises TypeError |
| LegacyFlask.FlaskServer.constructor | dashboard/flask/flask-dashboard.py:14-15 | no reading yet; the log is `sensor_log.csv` beside the app |
| LegacyFlask.FlaskServer.GetSensorData | dashboard/flask/flask-dashboard.py:30-31 | null before any accepted POST, the last accepted reading after |
| LegacyFlask.FlaskServer.PostSensorData | dashboard/flask/flask-dashboard.py:35-64 | a conversion failure answers 400 and changes nothing; otherwise `latest_data` is updated before the write; a write failure answers 400 with the exception's text and leaves the log as `FailedAppend` says (unchanged when the open fails); success appends and answers 201 |
| LegacyFlask.FlaskServer.GetHistory | dashboard/flask/flask-dashboard.py:68-88 | a missing log gives `[]`; otherwise the parsed history in file order |
| LegacyFlask.PostThenGet | dashboard/flask/flask-dashboard.py:30-64 | after a POST, GET returns the posted reading if it was accepted and null otherwise |
| FastApiApp.FastApiServer.constructor | dashboard/fastapi/fastapi.py:23 | no reading is cached at start |
| FastApiApp.FastApiServer.ReadSensor | dashboard/fastapi/fastapi.py:38-42 | `{"status": "no data received yet"}` before any POST, the last posted reading after |
| FastApiApp.FastApiServer.ReceiveData | dashboard/fastapi/fastapi.py:46-62 | the cache is replaced before the write; the header is written iff the file did not exist; a write error propagates and leaves the log as `FailedAppend` says (unchanged when the open fails) |
| FastApiApp.FastApiServer.GetHistory | dashboard/fastapi/fastapi.py:66-84 | a missing log raises; otherwise the parsed history in file order |
| LogFilter.FilterLog | dashboard/flask/utils/log-filter.py:7-15 | the output is the input lines that pass the date test, verbatim and in order |
| LogFilter.FilteredAppend | dashboard/flask/utils/log-filter.py:8-13 | filtering a concatenation filters each part |
| LogFilter.UnparsedLineSkipped | dashboard/flask/utils/log-filter.py:14-15 | an unparseable line, such as the header, is skipped and filtering continues |
| LogFilter.EmbedsGrow | dashboard/flask/utils/log-filter.py:8-13 | one more input line keeps the output a subsequence, whether or not it is written |
| LogFilter.FilteredSubsequence | dashboard/flask/utils/log-filter.py:8-13 | the output lines sit at increasing input positions, and exactly the kept lines are written |
| LogFilter.FilteredMembers | dashboard/flask/utils/log-filter.py:10-13 | a line is output iff it is in the input and its first comma field is an ISO timestamp dated on or after 2025-06-27 |
| LogFilter.CutoffInclusive | dashboard/flask/utils/log-filter.py:5-12 | 2025-06-27 at any time is kept; 2025-06-26 23:59:59 is not |
| LogFilter.DateOnly | dashboard/flask/utils/log-filter.py:12 | only the date matters, and the test is monotone in the date |
| DashboardJs.FieldText | dashboard/flask/static/js/dashboard.js:252 | falsy values become an empty field, strings are used as-is, and other values are converted to text |
| DashboardJs.Fields | dashboard/flask/static/js/dashboard.js:252 | one field per column, in column order |
| DashboardJs.Lines | dashboard/flask/static/js/dashboard.js:251-253 | one comma-joined line per data object, in order |
| DashboardJs.ConvertToCsv | dashboard/flask/static/js/dashboard.js:249-256 | begins with the columns joined by ',' and '\n'; empty data gives exactly that |
| DashboardJs.JoinCons | dashboard/flask/static/js/dashboard.js:253 | joining peels off its first part |
| DashboardJs.ConvertToCsvLines | dashboard/flask/static/js/dashboard.js:249-256 | splitting the output at '\n' gives the header and then one line per object, with no trailing empty line |
| DashboardJs.HeaderAndLines | dashboard/flask/static/js/dashboard.js:255 | header + '\n' + lines joined by '\n' splits back into the header and the lines |
| DashboardJs.CsvLineFields | dashboard/flask/static/js/dashboard.js:252 | each line splits back at ',' into its fields when they are comma-free |
| DashboardJs.JoinNoChar | dashboard/flask/static/js/dashboard.js:250-253 | joining never introduces a character absent from the parts and the separator |
| DashboardJs.MapData | dashboard/flask/static/js/dashboard.js:43-45 | same length and order, x = timestamp and y = e[key]; a null element makes the map throw |
| DashboardJs.MapDataAppend | dashboard/flask/static/js/dashboard.js:44 | mapping a concatenation maps each part in turn |
| DashboardJs.CalcAvg | dashboard/flask/static/js/dashboard.js:34-36 | "--" for an empty array, otherwise the mean passed to `toFixed(1)` |
| DashboardJs.SumBounds | dashboard/flask/static/js/dashboard.js:35 | a sum of values within [lo, hi] lies between n·lo and n·hi |
| DashboardJs.MeanBounds | dashboard/flask/static/js/dashboard.js:35 | the average lies between the smallest and largest possible y |
| DashboardJs.RangeValues | dashboard/flask/static/js/dashboard.js:166-170 | 1h = 3600000, 1d = 86400000 and 1w = 604800000 ms, with 1d = 24·1h and 1w = 7·1d |
| DashboardJs.ChartControls.constructor | dashboard/flask/static/js/dashboard.js:165 | the controls start from the chart's bounds and the stored keys |
| DashboardJs.ChartControls.ClickRange | dashboard/flask/static/js/dashboard.js:174-188 | "all" clears both bounds; a known range sets [now − range, now]; an unknown one gives NaN as the lower bound; the zoom keys are removed either way |
| DashboardJs.ChartControls.ResetZoom | dashboard/flask/static/js/dashboard.js:193-199 | both bounds are cleared and the zoom keys removed |
| DashboardJs.RangeWindow | dashboard/flask/static/js/dashboard.js:182-183 | after a range click the window ends now and is exactly the range's width, which is positive; the two zoom keys are removed from storage and every other key keeps its value |
| DashboardJs.DashboardView | dashboard/flask/static/js/dashboard.js:303-330 | a failed fetch or a `null` body shows "Error Loading Data"; status ≠ "ok", non-array data or empty data shows "No Data Available"; a payload that passes that guard renders exactly when none of its elements is `null` (a `null` element makes `mapData` throw, which shows "Error Loading Data"); a render shows the last element in the latest card and the four datasets `mapData` gives for temp_f, humidity, lux and moisture |
| DashboardJs.HistoryRenders | dashboard/flask/static/js/dashboard.js:306-319 | a non-empty history from the server renders with the last entry as latest and the four mapped datasets |
| MachineInt.Wrap32 | esp32-firmware/variants/opt3001.cpp:27 | unsigned 32-bit wrap: the identity in range, and congruent modulo 2^32 |
| MachineInt.WrapI32 | esp32-firmware/src/main.cpp:393 | two's-complement 32-bit wrap: the identity in range, and congruent modulo 2^32 |
| MachineInt.CDiv | esp32-firmware/src/main.cpp:200 | C integer division truncates toward zero: the quotient has the sign of the dividend, and the remainder has the dividend's sign and is smaller than the divisor |
| MachineInt.Constrain | esp32-firmware/src/main.cpp:201 | the value clamped to [lo, hi] |
| MachineInt.ArduinoMapMonotone | esp32-firmware/src/main.cpp:200 | `map()` with increasing ranges is non-decreasing |
| MachineInt.ArduinoMapEnds | esp32-firmware/src/main.cpp:200 | `map()` sends the input ends to the output ends |
| FirmwareMain.MoisturePercent | esp32-firmware/src/main.cpp:196-203 | always in 0..150 |
| FirmwareMain.MapDry | esp32-firmware/src/main.cpp:200 | raw ≤ 1200 maps to at most 0 |
| FirmwareMain.MapWet | esp32-firmware/src/main.cpp:200 | raw ≥ 4000 maps to at least 150 |
| FirmwareMain.MoistureEnds | esp32-firmware/src/main.cpp:196-203 | raw ≤ 1200 gives 0 and raw ≥ 4000 gives 150 |
| FirmwareMain.MoistureMonotone | esp32-firmware/src/main.cpp:196-203 | wetter readings never give a smaller percentage |
| FirmwareMain.BestChoiceUnique | esp32-firmware/src/main.cpp:116-125 | the best choice is unique |
| FirmwareMain.SelectBest | esp32-firmware/src/main.cpp:116-129 | -1 iff no scan entry matches a known SSID; otherwise the known index of the first entry with strictly the greatest RSSI |
| FirmwareMain.ConnectWiFi | esp32-firmware/src/main.cpp:77-133 | already connected means true with nothing changed; a deep-sleep retry of a saved, in-range index is tried first; a failed retry clears rtc_scanned; no match or no scan means false with the index unchanged; otherwise the best index is saved, rtc_scanned is set, and the join's outcome is returned |
| FirmwareMain.EmptyScanNoNetwork | esp32-firmware/src/main.cpp:110-114 | an empty scan has no known network |
| FirmwareMain.StrongerMatchWins | esp32-firmware/src/main.cpp:118-125 | no matching scan entry is stronger than the chosen network's best entry |
| FirmwareMain.Member | esp32-firmware/src/main.cpp:231 | `doc[k]` is the member, or null when absent or not an object |
| FirmwareMain.Payload | esp32-firmware/src/main.cpp:231-233 | `data` is unwrapped when present; a non-object `data` gives an empty object |
| FirmwareMain.CandidateSec | esp32-firmware/src/main.cpp:236-243 | `sleep` when it is a uint32, else `polling_interval` (divided by 1000 above 6000), else the current value |
| FirmwareMain.CandidateVer | esp32-firmware/src/main.cpp:251-253 | `config_version` when it is a uint32, else the current version |
| FirmwareMain.Decide | esp32-firmware/src/main.cpp:208-270 | not connected, HTTP ≠ 200, a parse error or a sleep outside 1..6000 rejects; apply only on a real change, with a valid sleep |
| FirmwareMain.FetchConfig | esp32-firmware/src/main.cpp:208-271 | true iff not rejected; on apply, sleep_sec, sleep_ms = sec·1000 and cfg_version (the new version if non-zero, else old+1) are set and saved to NVS; otherwise nothing changes |
| FirmwareMain.FetchIdempotent | esp32-firmware/src/main.cpp:258-262 | fetching the same document again right after an apply changes nothing |
| FirmwareMain.SleepPrecedence | esp32-firmware/src/main.cpp:237-243 | `sleep` wins over `polling_interval` |
| FirmwareMain.PollingBackCompat | esp32-firmware/src/main.cpp:239-242 | 300000 → 300, 6000 → 6000, 6001 → 6 |
| FirmwareMain.VersionRules | esp32-firmware/src/main.cpp:251-267 | with an unchanged sleep, only a greater version applies, and it is taken as-is |
| FirmwareMain.EmptyPayloadUnchanged | esp32-firmware/src/main.cpp:258-262 | an empty document leaves the configuration unchanged and succeeds |
| FirmwareMain.ZeroVersionBumps | esp32-firmware/src/main.cpp:267 | a new sleep with version 0 bumps cfg_version by 1, with 32-bit wrap |
| FirmwareMain.ServerUrlFor | esp32-firmware/src/main.cpp:301-307 | SSID1 → SERVER_URL1, SSID2 → SERVER_URL2, any other network → no URL |
| FirmwareMain.SelectedNetworkHasServer | esp32-firmware/src/main.cpp:305-306 | a network chosen from the two known SSIDs always has a server URL |
| FirmwareConfig.SecToMs | esp32-firmware/src/config.cpp:49 | `sec * 1000UL` with 32-bit wrap; exact for sec ≤ 4294967 |
| FirmwareConfig.MigratedSec | esp32-firmware/src/config.cpp:36-38 | `(old_ms + 500) / 1000` in uint32 arithmetic, clamped to 1..6000 |
| FirmwareConfig.ConfigStore.constructor | esp32-firmware/src/config.cpp:11-13 | globals start at sleep 300 s, 300000 ms and version 0 |
| FirmwareConfig.ConfigStore.LoadFromNVS | esp32-firmware/src/config.cpp:28-55 | `sleep_sec` is loaded as-is when present, else migrated from `sleep_ms` (stored under `sleep_sec`, and `sleep_ms` removed), else 300; the version defaults to 0; the globals mirror the result |
| FirmwareConfig.ConfigStore.SaveToNVS | esp32-firmware/src/config.cpp:57-66 | writes exactly the `sleep_sec` and `cfg_ver` keys and mirrors them into the globals |
| FirmwareConfig.EmptyDefaults | esp32-firmware/src/config.cpp:31-45 | with no keys the load gives 300 s and version 0; a present `sleep_sec` is used with no range check |
| FirmwareConfig.MigrationOneShot | esp32-firmware/src/config.cpp:31-40 | a second load takes the first branch, gives the same values and changes nothing further |
| FirmwareConfig.SaveThenLoad | esp32-firmware/src/config.cpp:28-66 | loading after a save returns the saved pair and changes nothing |
| FirmwareConfig.MigrationRounding | esp32-firmware/src/config.cpp:36-38 | 1499 ms → 1 s, 1500 → 2, 0 → 1, 300000 → 300, 7000000 → 6000 |
| FirmwareConfig.MigrationWraps | esp32-firmware/src/config.cpp:36 | `0xFFFFFFFF + 500` wraps, so the largest legacy value migrates to 1 s, not 6000 |
| RtcMemory.Rtc.constructor | esp32-firmware/src/main.cpp:37-41 | RTC state starts at bootCount 0, not scanned, index 0, zone BRIGHT, and confirm count 0 |
| RtcMemory.Rtc.CountBoot | esp32-firmware/src/main.cpp:393 | `++bootCount` adds 1, wrapping as a 32-bit int, and touches no other RTC field |
| Veml7700.PickZone | esp32-firmware/src/VEML7700_Enhanced.h:104-109 | VERY_BRIGHT at ≥ 25000, BRIGHT at ≥ 5000, DIM at ≥ 1500, VERY_DIM below, each as an if-and-only-if |
| Veml7700.PickZoneMonotone | esp32-firmware/src/VEML7700_Enhanced.h:104-109 | more light never picks a dimmer zone |
| Veml7700.ItToMs | esp32-firmware/src/VEML7700_Enhanced.h:92-102 | IT codes map to 25/50/100/200/400/800 ms, and unknown codes to 100 |
| Veml7700.ZoneSettings | esp32-firmware/src/VEML7700_Enhanced.h:117-123 | VERY_BRIGHT → (1/8, 25 ms), BRIGHT → (1/4, 50 ms), DIM → (1, 200 ms), VERY_DIM → (2, 400 ms), others → (1, 100 ms) |
| Veml7700.ZoneTimes | esp32-firmware/src/VEML7700_Enhanced.h:92-123 | integration times shrink strictly as zones get brighter; unknown zones use 100 ms |
| Veml7700.LuxSensor.constructor | esp32-firmware/src/VEML7700_Enhanced.h:23-24 | the sensor starts at the first reading with the given settings |
| Veml7700.LuxSensor.ReadLux | esp32-firmware/src/VEML7700_Enhanced.h:128 | each read consumes the next reading |
| Veml7700.Veml7700Enhanced.constructor | esp32-firmware/src/VEML7700_Enhanced.h:23-24 | construction starts at VERY_BRIGHT with lastLux 0 |
| Veml7700.Veml7700Enhanced.AverageLux | esp32-firmware/src/VEML7700_Enhanced.h:136-140 | the mean of the next three readings; the settings are untouched |
| Veml7700.Veml7700Enhanced.ApplyZone | esp32-firmware/src/VEML7700_Enhanced.h:111-134 | without force and with the same zone, a no-op; otherwise the zone's settings are applied and one reading is discarded |
| Veml7700.Veml7700Enhanced.Begin | esp32-firmware/src/VEML7700_Enhanced.h:26-39 | always returns true; force-applies the zone picked from the average; sets currentZone, rtc_currentZone and rtc_confirmCount = 0; lastLux is a fresh read |
| Veml7700.Veml7700Enhanced.Update | esp32-firmware/src/VEML7700_Enhanced.h:42-68 | true iff the picked zone differs; currentZone becomes the picked zone; a change applies the settings, resets the RTC zone and count, and rereads lux; otherwise the RTC is untouched and lastLux is the average |
| Veml7700.Veml7700Enhanced.SetZone | esp32-firmware/src/VEML7700_Enhanced.h:79 | force-applies the zone and sets currentZone |
| Veml7700.SteadyLight | esp32-firmware/src/VEML7700_Enhanced.h:42-68 | under constant light a second update reports no change |
| DeepSleep.MoisturePercent | esp32-firmware/deep-sleep.cpp:46-56 | always in 0..125 |
| DeepSleep.PieceRange | esp32-firmware/deep-sleep.cpp:49-53 | each linear piece stays within its output interval |
| DeepSleep.CurveBetween | esp32-firmware/deep-sleep.cpp:49-54 | the curve lies between the levels of its segment |
| DeepSleep.CurveInRange | esp32-firmware/deep-sleep.cpp:55 | the clamp to 0..125 never changes the curve's value |
| DeepSleep.SaturatedTop | esp32-firmware/deep-sleep.cpp:54 | raw > 3278 gives 125 |
| DeepSleep.Breakpoints | esp32-firmware/deep-sleep.cpp:49-53 | 0 → 0, 1000 → 20, 2000 → 50, 2600 → 85, 3000 → 100, 3278 → 120 |
| DeepSleep.SameSegmentMonotone | esp32-firmware/deep-sleep.cpp:49-54 | within a segment the curve is non-decreasing |
| DeepSleep.MoistureMonotone | esp32-firmware/deep-sleep.cpp:49-55 | the segments meet at the breakpoints, so the percentage is non-decreasing in raw |
| DeepSleep.JoinInPriorityOrder | esp32-firmware/deep-sleep.cpp:32-43 | the nested loops stop at the first successful join in (network, scan entry) order; none iff no attempt succeeds |
| DeepSleep.PriorityWins | esp32-firmware/deep-sleep.cpp:32-40 | the joined network comes no later in the list than any network that could join |
| DeepSleep.ConnectWiFi | esp32-firmware/deep-sleep.cpp:26-44 | connected iff some known network in the scan joins |
| DeepSleep.BootCounter.constructor | esp32-firmware/deep-sleep.cpp:11 | bootCount starts at 0 |
| DeepSleep.BootCounter.Boot | esp32-firmware/deep-sleep.cpp:62 | each boot adds exactly 1, wrapping as a 32-bit int |
| Opt3001.MoisturePercent | esp32-firmware/variants/opt3001.cpp:193-202 | always in 0..150 |
| Opt3001.MapDry | esp32-firmware/variants/opt3001.cpp:197 | raw ≤ 1200 maps to at most 0 |
| Opt3001.MapTop | esp32-firmware/variants/opt3001.cpp:197 | a 12-bit reading maps to at most 103 |
| Opt3001.MapFull | esp32-firmware/variants/opt3001.cpp:197 | raw 4000 maps to 100 |
| Opt3001.MoistureEnds | esp32-firmware/variants/opt3001.cpp:196-198 | raw ≤ 1200 gives 0, and raw 4000 gives 100 |
| Opt3001.MoistureCeiling | esp32-firmware/variants/opt3001.cpp:197-198 | a 12-bit ADC never exceeds 103%, reached at 4095, so the 150 cap never binds |
| Opt3001.MoistureMonotone | esp32-firmware/variants/opt3001.cpp:196-198 | wetter readings never give a smaller percentage |
| Opt3001.ConnectWiFi | esp32-firmware/variants/opt3001.cpp:46-78 | zero scan results give false; otherwise connected iff some known network in the scan joins, tried in priority order |
| Opt3001.ConnectConfig | esp32-firmware/variants/opt3001.cpp:144-163 | `WiFi.begin` is called iff ssid and password are both present and non-empty; connected iff begun and joined |
| Opt3001.Applied | esp32-firmware/variants/opt3001.cpp:115-132 | polling_rate, mqtt_broker and mqtt_port are copied independently when present; ssid and password only when both are present |
| Opt3001.AppliedIdempotent | esp32-firmware/variants/opt3001.cpp:115-132 | applying the same document twice gives the same settings as once |
| Opt3001.CredentialsTogether | esp32-firmware/variants/opt3001.cpp:120-124 | the credentials change only when both keys are present |
| Opt3001.NonObjectCopiesNothing | esp32-firmware/variants/opt3001.cpp:115-132 | a document that is not an object copies nothing |
| Opt3001.Device.constructor | esp32-firmware/variants/opt3001.cpp:26-33 | pollingInterval 10000, empty credentials and broker, port 1883, and lastUpdate = −10000 as unsigned long |
| Opt3001.Device.Set | esp32-firmware/variants/opt3001.cpp:26-33 | the settings are replaced and lastUpdate is kept |
| Opt3001.Device.FetchConfig | esp32-firmware/variants/opt3001.cpp:101-142 | true iff HTTP 200 and the document parses, and then the keys are copied; otherwise nothing changes |
| Opt3001.Device.ConfigTaskRound | esp32-firmware/variants/opt3001.cpp:282-314 | one round copies only polling_rate, on HTTP 200 with a parsed document containing it |
| Opt3001.Device.SensorTaskRound | esp32-firmware/variants/opt3001.cpp:204-263 | idle unless due; when due, lastUpdate := now, SSID1 posts to SERVER_URL1, SSID2 to SERVER_URL2, and any other SSID skips the post |
| Opt3001.Elapsed | esp32-firmware/variants/opt3001.cpp:207 | `now - lastUpdate` in unsigned 32-bit arithmetic |
| Opt3001.ElapsedAcrossWrap | esp32-firmware/variants/opt3001.cpp:207 | the elapsed time is right even when millis() wraps |
| Opt3001.FirstCheckFires | esp32-firmware/variants/opt3001.cpp:27 | the initial lastUpdate = −pollingInterval makes the first check due |
| Opt3001.DueAfterInterval | esp32-firmware/variants/opt3001.cpp:206-208 | a reading is due exactly when at least pollingInterval ms have passed since lastUpdate, modulo 2^32 |

## Left out

- HTTP framework plumbing is not modelled: routing decorators, `jsonify`, `render_template`, pydantic's 422 answer for a malformed FastAPI body, the `/dashboard` routes with their pandas read, and the `/api/status` routes. Request facts enter as parameters: `is_json`, the decoded body, and the status code.
- MQTT (`mqtt_handler.py`) and ntfy (`ntfy_handler.py`) are treated as opaque calls that may raise. The model records only that each was attempted with the reading.
- `format_sensor_data` and `get_today_logfile` are left out. They are string formatting and a date-named path, and neither decides anything.
- Python's `float()` and `int()` on strings, `round()`/`str()`, `str(e)`, `fromisoformat` and `strptime` are passed-in functions. Floating-point rounding, NaN and infinities are not modelled; `float()` of an int is modelled exactly up to its OverflowError bound, without rounding to the nearest double.
- Python's `csv` quoting and escaping is not modelled: fields are comma-free. The utf-8-sig BOM is not modelled either.
- Reading errors other than a missing file are not derived from the file system: in `load_log_data` an error is a passed-in outcome, and in the `get_history` of flask-dashboard.py (which catches only `FileNotFoundError`, line 87) and of fastapi.py an `open` or read error on an existing log is not modelled.
- Write errors in the appends are passed-in outcomes (`WriteFailure`): one before the `open` changes nothing, and one after it is counted in whole rows written. A row written only in part is not modelled.
- Configuration files whose JSON is not an object are not modelled. How `save_config` fails is a passed-in outcome, and a `json.dump` that fails part-way leaves a file that the next `json.load` rejects; what text it leaves is not modelled.
- Clock.DateTime: years are limited to 1000..9999, so `%Y` always has four digits.
- The dashboard's DOM, Chart.js and localStorage are not modelled. The chart bounds and the stored keys are kept as fields. The first, shadowed `initDashboard` (dashboard.js:208) is not modelled.
- DashboardJs.CalcAvg: numeric `y` only. A missing `y` (NaN) or a string `y` (string concatenation in `sum + p.y`) is not modelled. `toFixed(1)` is a passed-in function, and the floating-point summation is modelled with exact reals.
- Concurrency is out of scope. This covers gunicorn threads, FreeRTOS tasks and their delays, OTA, the watchdog, `wifiMonitorTask`, deep sleep, `netBusy`, and the unlocked log append. The opt3001 task loops are modelled one round at a time.
- Sensor hardware is passed in: analogRead values, SHT31/HDC1080 and OPT3001 readings, and the °C→°F conversion. The sensor payload is serialised and posted, but the model stops at choosing the URL.
- WiFi scanning, joining (including `try_connect`'s 10-second timeout), HTTP transport and timeouts, `http.end`, NTP/`syncTime` and the `bootCount % 12` resync, and the `setup` sequencing are passed in or left out.
- ArduinoJson's `as<uint32_t>`, `as<int>` and `as<String>` conversions are passed-in functions. FirmwareMain.IsU32 treats only integral JSON numbers in 0..2^32−1 as `is<uint32_t>()`. A floating-point member counts as not a uint32. A document that fails to parse arrives as no document.
- FirmwareMain.ConnectWiFi: requires at most 256 known networks, because the index is kept in a `uint8_t`. The firmware's table has two entries.
- DeepSleep.ConnectWiFi: returns whether a join succeeded, where the firmware's function returns nothing and leaves the result in the WiFi status.
- Veml7700.Veml7700Enhanced.AverageLux: the float division by 3.0f is modelled with exact reals.
- The OPT3001 variant's `connectWiFi_OTA` and the deep-sleep sketch's posting loop are not modelled. They are uses of the modelled pieces together with network transport.
- The pandas scripts (`logs/data-cleaner.py`, `utils/merge-logs.py`) and the bootstrap and logging files (`dashboard.py`, `logging_config.py`, `gunicorn.conf.py`) are not part of this model.

## Findings

| source | as written | input that shows it | evidently intended | confidence | as-written member | corrected member |
|---|---|---|---|---|---|---|
| dashboard/flask/routes.py:55 | `api_response("error", msg, 400)` passes 400 as the third positional argument, which is `data`. The same pattern appears at lines 59, 83, 100, 105, 152, 154 and 157 | a POST to /api/sensor without a JSON content type: the reply is HTTP 200 with body `{"status": "error", "message": ..., "data": 400}` | `http_status=400` (500 at lines 100 and 105), with no `data` member | not executed | Routes.ErrorPositional, Routes.PositionalCodeIsNotStatus, Routes.PostOutcome, Routes.ConfigRejection | Routes.ErrorReply |
