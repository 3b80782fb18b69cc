# IoT dashboard: live sensor table and audit-log query, in Dafny

This project models the two pieces of logic inside the dashboard's UI code.

**The live sensor table** (`app/page.tsx`). Each `sensor-data` message pushed over the
socket is folded into the page's list of readings. If a reading for the same `sensor_id`
is already in the list, the first such entry is overwritten where it stands. Otherwise the
new reading goes to the front and the old list is cut to its first 49 entries, so the list
never holds more than 50. Timestamps are never compared, so the reading that arrives last
wins. Logging out empties the list. From the list the page derives the colour bands of the
temperature and humidity tags and three stat cards: the number of distinct sensor ids, and
the average temperature and humidity. An average shows "-" on an empty list, and its colour
is then computed from 0.

**The audit-log request** (`app/panel/logs/page.tsx`). `fetchLogs` grows its URL from
`<base>/logs?` by appending `userId=<n>&`, `action=<a>&` and `startDate=<s>&endDate=<e>&`,
in that order. Each is appended only when its filter is truthy in JavaScript, so a userId
of 0 and an empty action are dropped, and the two dates go together. Resetting the filters
makes every filter undefined again. `getActionColor` maps six known actions to tag colours
and every other string to "geekblue".

Two choices follow the code where a "freshest first" table might be expected. A refreshed
sensor is overwritten where it stands and is not moved to the front:
`SensorFeed.RefreshKeepsPosition` shows readings A, B, then A again giving `[B, A']`, and
`SensorStats.RefreshScenarioStats` shows that this list has 2 active sensors, with B coloured
blue at 5 C and A red at 33 C. And every message is merged as it arrives, with no check of
its fields: `SensorTable.Merge` has no precondition on the message. Eviction at the cap of
50 is stated in general form by `SensorFeed.MergeEvictsLast`: only the entry at index 49
goes. Because a refresh does not move an entry, index 49 holds the sensor that first arrived
earliest among those present, not the one updated longest ago: eviction goes by first
arrival, and `SensorFeed.RefreshedLastIsEvicted` shows a sensor refreshed at index 49 being
evicted by the next new sensor.

Modules:
- `Common` (common.dfy): `Option` and `Min`.
- `SensorFeed` (sensor_feed.dfy): the reading, the `setData` updater as the function
  `Merged`, its properties, and the class `SensorTable` holding the list as a `seq`.
- `SensorStats` (sensor_stats.dfy): colour bands, the active-sensor count and the averages.
  Averages are over reals.
- `AuditLogs` (audit_logs.dfy): the filter state class `LogsPage`, the URL built by
  successive appends and its specification `LogsUrl`, a parser that reads the query back,
  and the action colours.

## Model

| member | source | states |
|---|---|---|
| `SensorFeed.FindIndex` | app/page.tsx:86 | `findIndex` by sensor id: -1 when no entry carries the id, otherwise the first index that does |
| `SensorFeed.Merged` | app/page.tsx:84-97 | the `setData` updater: the message is always in the result, and the result either keeps the old length or has at most 50 entries |
| `SensorFeed.MergeKnown` | app/page.tsx:86-92 | a reading for a known sensor replaces exactly the first entry with its id; length and every other entry, with its position, are unchanged |
| `SensorFeed.MergeNew` | app/page.tsx:93-96 | a reading for a new sensor yields `[msg] + prev[..min(|prev|, 49)]`: the reading at index 0, the older entries after it in their old order |
| `SensorFeed.MergeLength` | app/page.tsx:88-96 | a known id keeps the length, a new id gives `min(|prev| + 1, 50)`, and a list of at most 50 stays at most 50 |
| `SensorFeed.MergeUnique` | app/page.tsx:86-96 | if the old list has pairwise distinct sensor ids, so does the merged list |
| `SensorFeed.MergeLastWriteWins` | app/page.tsx:86-95 | after a merge the entry found for the message's sensor is the message itself, whatever the timestamp of the reading it displaced |
| `SensorFeed.MergeKeepsOthers` | app/page.tsx:84-97 | every other sensor keeps its stored reading, except a sensor at index 49 or beyond when a new sensor arrives, which is gone |
| `SensorFeed.MergeIds` | app/page.tsx:84-97 | the set of sensor ids is unchanged for a known id; for a new id it is the new id plus the ids among the first 49 entries |
| `SensorFeed.MergeEvictsLast` | app/page.tsx:95 | at 50 entries with distinct ids, a new sensor evicts exactly the sensor at index 49 and no other |
| `SensorFeed.RefreshedLastIsEvicted` | app/page.tsx:86-95 | a sensor refreshed in place at index 49 of a full table still shows its new reading, and is the one the next new sensor evicts |
| `SensorFeed.MergedAll` | app/page.tsx:83-98 | the updater applied to each message in arrival order: afterwards the sensor of the last message shows that message |
| `SensorFeed.MergedAllValid` | app/page.tsx:83-98 | any stream of messages folded into a list of at most 50 distinct ids leaves at most 50 distinct ids |
| `SensorFeed.RefreshKeepsPosition` | app/page.tsx:83-98 | readings A, B, then A again give `[B, A']`: the refreshed sensor is overwritten in place, not moved to the front |
| `SensorFeed.SensorTable.constructor` | app/page.tsx:44 | the page starts with an empty list |
| `SensorFeed.SensorTable.Merge` | app/page.tsx:83-98 | one `sensor-data` message replaces the list by `Merged(old list, msg)`, with no check on the message, and keeps the list within 50 entries with distinct ids |
| `SensorFeed.SensorTable.Reset` | app/page.tsx:135-142 | logout leaves the list empty (a second reset changes nothing) |
| `SensorStats.TempColor` | app/page.tsx:144-148 | "red" exactly above 30, "blue" exactly below 10, "green" exactly on [10, 30], so 10 and 30 are green |
| `SensorStats.HumidityColor` | app/page.tsx:150-154 | "blue" exactly above 70, "orange" exactly below 30, "green" exactly on [30, 70], so 30 and 70 are green |
| `SensorStats.ActiveSensors` | app/page.tsx:226 | the Active Sensors card, the number of distinct ids: 0 exactly on an empty list |
| `SensorStats.ActiveSensorsCount` | app/page.tsx:226 | the number of distinct ids is at most the list length, and equals it when ids are distinct |
| `SensorStats.ActiveSensorsOfTable` | app/page.tsx:226 | for the page's table the Active Sensors card equals the number of rows, at most 50 |
| `SensorStats.MeanTemperature` | app/page.tsx:232 | absent ("-") exactly on an empty list; otherwise the value that times the length gives the sum of temperatures |
| `SensorStats.MeanHumidity` | app/page.tsx:238 | absent ("-") exactly on an empty list; otherwise the value that times the length gives the sum of humidities |
| `SensorStats.TemperatureSum` | app/page.tsx:232 | the `reduce` sum of temperatures; one reading sums to its own temperature |
| `SensorStats.TemperatureSumAppend` | app/page.tsx:232 | the sum over a concatenation is the sum of the two sums, so the fold order does not change the total |
| `SensorStats.TemperatureSumBounds` | app/page.tsx:232 | temperatures within [lo, hi] sum to within [n*lo, n*hi] |
| `SensorStats.HumiditySum` | app/page.tsx:238 | the `reduce` sum of humidities; one reading sums to its own humidity |
| `SensorStats.HumiditySumAppend` | app/page.tsx:238 | the sum over a concatenation is the sum of the two sums, so the fold order does not change the total |
| `SensorStats.HumiditySumBounds` | app/page.tsx:238 | humidities within [lo, hi] sum to within [n*lo, n*hi] |
| `SensorStats.MeanTemperatureBounds` | app/page.tsx:232 | the average temperature lies within any bounds that every reading respects |
| `SensorStats.MeanHumidityBounds` | app/page.tsx:238 | the average humidity lies within any bounds that every reading respects |
| `SensorStats.AllGreenTemperatureCard` | app/page.tsx:234 | if every reading's temperature tag is green, so is the average temperature card |
| `SensorStats.AllGreenHumidityCard` | app/page.tsx:240 | if every reading's humidity tag is green, so is the average humidity card |
| `SensorStats.StatsOf` | app/page.tsx:223-242 | the three stat cards: each average is absent ("-") exactly on an empty list, and then its card is blue for temperature and orange for humidity |
| `SensorStats.RefreshScenarioStats` | app/page.tsx:83-98 | readings A (32 C), B (5 C), A (33 C) give two rows, B then A, 2 active sensors, B blue and A red |
| `SensorStats.EmptyStats` | app/page.tsx:223-242 | on an empty list (as after logout at line 141): 0 active sensors, both averages "-", temperature card blue, humidity card orange |
| `AuditLogs.Decimal` | app/panel/logs/page.tsx:38 | `${userId}` for an integer: digits and a minus sign only, starting with `-` exactly when negative, no leading zero before or after the sign, and "0" exactly for 0 |
| `AuditLogs.DecimalRoundTrip` | app/panel/logs/page.tsx:38 | the userId written into the URL reads back as the same integer |
| `AuditLogs.UserIdPart` | app/panel/logs/page.tsx:38 | empty exactly when the userId is undefined or 0; otherwise starts with `userId=` and ends with `&` |
| `AuditLogs.ActionPart` | app/panel/logs/page.tsx:39 | empty exactly when the action is undefined or empty; otherwise starts with `action=` and ends with `&` |
| `AuditLogs.DatePart` | app/panel/logs/page.tsx:40-42 | empty exactly when no range is set; otherwise starts with `startDate=` and ends with `&` |
| `AuditLogs.QueryOf` | app/panel/logs/page.tsx:38-42 | the query after `?` is empty exactly when no filter is truthy |
| `AuditLogs.LogsUrl` | app/panel/logs/page.tsx:36-42 | the requested URL always begins with `<base>/logs?` |
| `AuditLogs.LogsUrlShape` | app/panel/logs/page.tsx:36-42 | the URL begins with `<base>/logs?`, and ends right after `?` exactly when no filter is truthy |
| `AuditLogs.QueryEndsWithAmpersand` | app/panel/logs/page.tsx:38-42 | every parameter is terminated by `&`: a non-empty query ends with `&` |
| `AuditLogs.ExpectedParamsPresent` | app/panel/logs/page.tsx:36-42 | userId is present exactly when truthy, action exactly when a non-empty string, startDate and endDate each exactly when a range is set |
| `AuditLogs.ExpectedParamsOrdered` | app/panel/logs/page.tsx:36-42 | the parameters present always come in the order userId, action, startDate, endDate |
| `AuditLogs.ParseUserIdPart` | app/panel/logs/page.tsx:38 | the userId fragment reads back as the pair `("userId", n)` when truthy and as nothing otherwise |
| `AuditLogs.ParseActionPart` | app/panel/logs/page.tsx:39 | the action fragment reads back as the pair `("action", a)` when a non-empty string and as nothing otherwise |
| `AuditLogs.ParseDatePart` | app/panel/logs/page.tsx:40-42 | the date fragment reads back as both pairs when a range is set and as nothing otherwise |
| `AuditLogs.QueryRoundTrip` | app/panel/logs/page.tsx:36-42 | reading the query back gives exactly the expected parameters with their values, in order, when the values hold no `&` |
| `AuditLogs.UserIdRecovered` | app/panel/logs/page.tsx:38 | a truthy userId is the first parameter and parses back to the same number |
| `AuditLogs.NoFiltersUrl` | app/panel/logs/page.tsx:73-79 | with every filter undefined, as after a reset, the URL is `<base>/logs?` with no parameters |
| `AuditLogs.ActionColor` | app/panel/logs/page.tsx:138-148 | the colour is "geekblue" exactly for strings that are not one of the six known actions |
| `AuditLogs.ActionColorTable` | app/panel/logs/page.tsx:138-148 | login green, logout volcano, user_created cyan, user_updated blue, user_deleted red, viewed_logs purple, anything else geekblue |
| `AuditLogs.ActionOptionsColoured` | app/panel/logs/page.tsx:182-187 | each of the six actions offered by the filter has a colour of its own, none the default |
| `AuditLogs.LogsPage.constructor` | app/panel/logs/page.tsx:25-29 | the page starts with every filter undefined |
| `AuditLogs.LogsPage.ResetFilters` | app/panel/logs/page.tsx:73-79 | after a reset userId, action and dateRange are all undefined |
| `AuditLogs.LogsPage.RequestUrl` | app/panel/logs/page.tsx:36-42 | the URL grown by successive appends equals `LogsUrl(base, filters)` |

## Left out

- The socket.io connection, the "Connected"/"Disconnected" status strings and the reconnection options (app/page.tsx:68-81, 100-102): transport and timing belong to a library.
- Login, the `fetch` calls and `localStorage` session handling (app/page.tsx:54-63, 106-133; app/panel/logs/page.tsx:44-60): network and browser-storage I/O. The server base URL is a parameter.
- React's state scheduling: each `setData` updater is taken to run once per message, in arrival order, which is how the model applies `Merge`.
- Messages are modelled as well-formed readings: `SensorData` gives every message a string id, an integer timestamp and numeric temperature and humidity. The page merges whatever arrives, so payloads with missing or non-numeric fields are not modelled: a message without `sensor_id` would match any other entry that also lacks one (app/page.tsx:86), and a missing or string `temperature` would turn the averages into NaN or string concatenation (app/page.tsx:232, 238).
- Floating point: temperatures, humidities and averages are reals. IEEE rounding, NaN and infinities are not modelled; in JavaScript a NaN reading compares false both ways and would be coloured "green".
- `toFixed` formatting, `Date` and `dayjs` rendering, and the date sorter (app/page.tsx:199, 207, 217; app/panel/logs/page.tsx:133-134).
- The userId filter is an integer or undefined. Fractional numbers and NaN are not modelled.
- AuditLogs.Decimal: matches `${n}` only for |n| <= 2^53 (the first integer above Number.MAX_SAFE_INTEGER, which is 2^53 - 1). Above that JavaScript prints the shortest digits that read back as the same double, padded with zeros (2^64 renders as 18446744073709552000), or exponent notation from 1e21 on; `Decimal` writes every digit of the exact integer.
- The filter setters and their conversions, `Number(...)` and `toISOString` (app/panel/logs/page.tsx:171, 180, 192-203): conversions by foreign library calls.
- Percent-encoding: the page writes values verbatim, so a value holding `&` would split into extra parameters. `AuditLogs.QueryRoundTrip` is stated for values without `&`; the action filter's options and ISO dates never hold one.
- All JSX rendering, table pagination and row keys.
- app/panel/user-management/page.tsx and app/panel/page.tsx: request wrappers and navigation markup with no logic to verify.
