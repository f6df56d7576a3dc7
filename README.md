# ESP32 ping logger: the in-memory log store

This project models the log store of a small Express service that receives
periodic pings from ESP32 devices. The repository contains two versions of the
back end, and both are modelled:

- **index.js** is the current version (module `PingLogger`).
  - `isValidPayload` accepts an object whose `deviceId` is a string that is not blank after `trim()`, and whose `Number(timestamp)` is finite and positive.
  - POST `/api/logs` stamps the entry with `receivedAt = Math.floor(Date.now() / 1000)` and pushes it onto `LOGS`. It then keeps only the newest 50,000 entries.
  - GET `/api/logs` can filter by `String(deviceId)`. It sorts a copy newest first and cuts the result to `Math.max(1, Math.min(Number(limit) || 1000, 10000))` rows.
  - GET `/api/logs/:deviceId` returns that device's entries, newest first.
- **server/index.js** is the earlier version (module `LegacyServer`).
  - POST `/api/logs` checks only that `deviceId` and `timestamp` are truthy. It then pushes `{ deviceId, timestamp }` unconverted onto an unbounded `logs` array.
  - GET `/api/logs` returns the whole array.
  - GET `/api/logs/:deviceId` returns the device's entries in insertion order.

The JavaScript semantics these handlers depend on are spelled out in module
`JsValues`: request values, truthiness, `Number(...)`, `String(...)` and
`trim()`. The array operations `filter`, `slice(0, n)` and `slice(-n)` are in
module `Seqs`. Each module-level array is modelled as a class holding a `seq`
field. Handlers that change the array are methods with `modifies this`. The
read-only handlers are methods without a `modifies` clause, and each returns a
specification function of the stored sequence. The stable sort that
`Array.prototype.sort` performs is modelled by `PingLogger.SortDesc`, an
insertion sort. Module `Compat` compares the two validators.

Points where the code is narrower than one might expect:
- Stored entries carry only `deviceId`, `timestamp` and (in index.js) `receivedAt`. Any other body fields are dropped.
- index.js also rejects a `deviceId` that is not a string.
- The two versions order GET `/api/logs/:deviceId` differently: index.js returns newest first, server/index.js returns insertion order.

## Model

| member | source | states |
|---|---|---|
| `JsValues.LeadingWhitespace` | index.js:44 | the run of whitespace `trim()` drops from the front is maximal: every character in it is whitespace and the next one is not |
| `JsValues.Trim` | index.js:44 | `trim()` returns the slice of the string that starts right after its leading whitespace and is followed only by whitespace; it is empty exactly when every character is whitespace, and otherwise starts and ends with a non-whitespace character |
| `JsValues.NatToDecimal` | index.js:92 | the decimal spelling `String(n)` uses for a non-negative integer below 10^21 is a digit run that reads back as `n`, and it starts with `0` only when it is `"0"` itself |
| `JsValues.ToJsString` | index.js:92 | `String(v)`: "undefined", "null", "true"/"false", the decimal spelling below 10^21 in magnitude (with `-` for a negative number), the string itself, or "[object Object]" for an object without its own `toString` key; `NumberStringRoundTrip` shows `Number` reads a number's spelling back |
| `JsValues.StringToNumber` | index.js:46 | `Number(s)` for a string: blank gives 0, an optionally signed digit run gives its value, the three Infinity spellings give infinities, anything else NaN; characterised by `DecimalStringValue`, `NegativeDecimalStringValue`, `NonNumericStringIsNaN` and `NumberStringRoundTrip` |
| `JsValues.ToNumber` | index.js:97 | `Number(v)`: undefined and objects give NaN, null gives 0, booleans 0 or 1, numbers themselves, strings as `StringToNumber`; `FalsyNumber` relates it to truthiness |
| `JsValues.NumberStringRoundTrip` | index.js:45-46 | `Number(String(n)) == n` for every integer `n`, so a timestamp sent as a numeric string converts to its value |
| `JsValues.NonNumericStringIsNaN` | index.js:46 | a string whose trimmed form starts with anything but a digit, a sign, a decimal point or `I` converts to NaN |
| `JsValues.DecimalStringValue` | index.js:46 | a string whose trimmed form is a run of decimal digits converts to the value of those digits |
| `JsValues.NegativeDecimalStringValue` | index.js:46 | a string whose trimmed form is `-` followed by decimal digits converts to the negated value of those digits |
| `JsValues.Truthy` | index.js:91 | JavaScript truthiness of a JSON value, as in `if (deviceId)`; `FalsyValues` lists exactly the falsy values |
| `JsValues.FalsyValues` | server/index.js:24 | the falsy values are exactly `undefined`, `null`, `false`, `0` and `""` |
| `JsValues.FalsyNumber` | index.js:97 | `Number(v)` of a falsy `v` is NaN or 0, which are the values that make `Number(limit) \|\| 1000` take the default |
| `Seqs.Filter` | index.js:92 | `filter` returns no more elements than its input, and all of them satisfy the predicate |
| `Seqs.FilterMultiset` | server/index.js:45 | `filter` keeps each element that satisfies the predicate as often as it occurs, and drops every other element |
| `Seqs.FilterConcat` | server/index.js:45 | filtering distributes over concatenation, so `filter` keeps the input's order |
| `Seqs.Take` | index.js:98 | `slice(0, n)` is the prefix of length `min(\|s\|, n)` |
| `Seqs.LastN` | index.js:80 | `slice(-n)` is the suffix of length `min(\|s\|, n)` |
| `Seqs.LastNPush` | index.js:77-80 | after a push and `slice(-n)`, every kept element satisfies what all earlier elements and the pushed one satisfied, and the pushed element is last |
| `Seqs.LastNAppend` | index.js:77-80 | trimming before a push and then trimming again gives the same store as trimming once after the push |
| `PingLogger.IsValidPayload` | index.js:41-49 | `isValidPayload`: an object whose `deviceId` is a string with a non-blank trim and whose `Number(timestamp)` is finite and positive; characterised by `ValidPayloadIff` and `NumericStringTimestampAccepted` |
| `PingLogger.ValidPayloadIff` | index.js:41-49 | a payload is valid iff it is an object, its `deviceId` is a string containing a non-whitespace character, and `Number(timestamp)` is finite and positive |
| `PingLogger.NumericStringTimestampAccepted` | index.js:45-47 | a timestamp sent as the decimal string of `n` is accepted iff `n > 0`, and it converts to `n` |
| `PingLogger.MakeEntry` | index.js:69-76 | the stored entry keeps the device id as sent and the converted timestamp; `receivedAt` is `now / 1000` rounded down; the entry is well formed |
| `PingLogger.RetainWellFormed` | index.js:77-80 | push-then-trim keeps every stored entry well formed, and the new entry is the last one kept |
| `PingLogger.IngestAll` | index.js:77-80 | the store after a run of accepted POSTs, each pushing and then keeping the last 50,000; `IngestAllKeepsNewest` gives its closed form |
| `PingLogger.IngestAllKeepsNewest` | index.js:77-80 | after any run of appends, the store is exactly the newest 50,000 of everything appended, in arrival order |
| `PingLogger.InsertDescPermutes` | index.js:95 | inserting into the sorted copy adds exactly the new entry |
| `PingLogger.InsertDescSorted` | index.js:95 | inserting into a newest-first sequence keeps it newest first |
| `PingLogger.SortDescSorted` | index.js:95 | the sort returns a permutation of its input, ordered by `timestamp` descending |
| `PingLogger.InsertDescAtTime` | index.js:95 | insertion puts the new entry after every entry that has the same timestamp |
| `PingLogger.SortDesc` | index.js:95 | the stable newest-first sort, as an insertion sort; `SortDescSorted` and `SortDescStable` determine its result uniquely |
| `PingLogger.SortDescLength` | index.js:95 | sorting keeps the number of entries |
| `PingLogger.SortDescStable` | index.js:95 | the sort is stable: entries with equal timestamps keep their relative order |
| `PingLogger.ClampLimit` | index.js:97 | the limit is always in [1, 10000]; NaN or 0 gives 1000; an in-range value is kept; a value that is too large, or +Infinity, gives 10000; a negative value, or -Infinity, gives 1 |
| `PingLogger.DefaultLimitCases` | index.js:97 | an absent limit, a blank one, one spelled with zeros only (such as `"0"`), or one that starts with none of a digit, a sign, a decimal point or `I` yields the default of 1000 |
| `PingLogger.Matching` | index.js:90-93 | the rows before sorting are exactly the entries of device `String(deviceId)` when `deviceId` is truthy, and every entry otherwise |
| `PingLogger.ListLogs` | index.js:87-99 | GET `/api/logs` returns `min(#matching, limit)` rows, at most 10000; they are sorted newest first, drawn from the matching entries, and each one is in the store |
| `PingLogger.TakeSortedKeepsNewest` | index.js:98 | cutting a newest-first sequence never drops an entry that is newer than a kept one |
| `PingLogger.ListLogsKeepsNewest` | index.js:95-98 | no matching entry that the limit leaves out is newer than any returned row |
| `PingLogger.TakeAtTime` | index.js:98 | `slice(0, n)` keeps, at every timestamp, a prefix of the entries with that timestamp |
| `PingLogger.ListLogsStable` | index.js:95-98 | at every timestamp, the returned rows are a prefix of the matching entries with that timestamp in arrival order, so the cut keeps the earliest-arrived of equal timestamps |
| `PingLogger.ListLogsComplete` | index.js:97-98 | when the limit cuts nothing, every matching entry is returned |
| `PingLogger.EmptyDeviceQueryListsAll` | index.js:91 | `?deviceId=` (empty) is falsy, so it lists every device |
| `PingLogger.ListDevice` | index.js:102-108 | GET `/api/logs/:deviceId` is newest first and holds exactly that device's entries, each as often as it is stored |
| `PingLogger.ListDeviceStable` | index.js:104-106 | a device's entries that share a timestamp come back in arrival order |
| `PingLogger.ListLogsMatchesListDevice` | index.js:90-106 | for a non-empty device id within the limit, the query form and the path form return the same rows |
| `PingLogger.PostedEntryListed` | index.js:72-80 | after an accepted POST, the new entry is among its device's listed entries |
| `PingLogger.LogStore.constructor` | index.js:38 | the store starts empty |
| `PingLogger.LogStore.Post` | index.js:65-84 | an invalid payload gives 400 and leaves `LOGS` unchanged; a valid one gives 200 and sets `LOGS` to the newest 50,000 of the old store plus the new entry, which is last; size stays at most 50,000 and every entry stays well formed |
| `PingLogger.LogStore.List` | index.js:87-99 | GET `/api/logs` returns `ListLogs` of the store and changes nothing |
| `PingLogger.LogStore.ListForDevice` | index.js:102-108 | GET `/api/logs/:deviceId` returns `ListDevice` of the store and changes nothing |
| `LegacyServer.Accepts` | server/index.js:24 | `!deviceId \|\| !timestamp` is false: both fields are truthy |
| `LegacyServer.PostStatus` | server/index.js:22-28 | 200 exactly when both fields are truthy; 400 exactly when the body exists but a field is falsy; 500 when the body is `undefined` or `null` |
| `LegacyServer.FalsyFieldRejected` | server/index.js:23-26 | a missing, `""`, `0`, `null` or `false` `deviceId` or `timestamp` gives 400 |
| `LegacyServer.DeviceLogs` | server/index.js:43-47 | the device listing holds only that device's entries, and all of them, each as often as it is stored |
| `LegacyServer.DeviceLogsAppend` | server/index.js:45 | the listing of a longer store extends the listing of the shorter one, so the listing is in insertion order |
| `LegacyServer.PostAll` | server/index.js:22-29 | the store after a run of POSTs, each accepted body appending `{ deviceId, timestamp }` unconverted; `PostAllGrows` states its size and that earlier entries stay |
| `LegacyServer.PostAllGrows` | server/index.js:15-29 | over any run of POSTs, the store grows by exactly the number of accepted bodies and keeps every earlier entry in place; nothing is evicted |
| `LegacyServer.LegacyLogStore.constructor` | server/index.js:15 | the store starts empty |
| `LegacyServer.LegacyLogStore.Post` | server/index.js:22-29 | an accepted POST appends `{ deviceId, timestamp }` unconverted and grows the store by one; any other POST leaves it unchanged |
| `LegacyServer.LegacyLogStore.ListAll` | server/index.js:35-37 | GET `/api/logs` returns the whole store in insertion order and changes nothing |
| `LegacyServer.LegacyLogStore.ListForDevice` | server/index.js:43-47 | GET `/api/logs/:deviceId` returns `DeviceLogs` of the store and changes nothing |
| `Compat.ValidImpliesLegacyAccepts` | index.js:41-49 | every payload index.js accepts, server/index.js accepted too |
| `Compat.LegacyAcceptsNonNumericTimestamp` | index.js:45-47 | the converse fails: with a truthy device id, any timestamp string whose trimmed form starts with none of a digit, a sign, a decimal point or `I` (such as `"x"`) passed the earlier truthiness check and is refused now |

## Left out

- Express plumbing is not modelled: routing, `listen`, `morgan`, the JSON body parser and its 256 kB limit (index.js:9-35, index.js:116-118; server/index.js:1-12, server/index.js:49-52). The model starts at the handlers.
- The CORS origin callback and its list of allowed origins (index.js:19-33) are left out. They are middleware configuration and do not touch the store.
- The 500 error handler (index.js:111-114) is left out because it only shapes a response. The informational routes GET `/` and GET `/api/health` (index.js:52-62) are also left out: they report constants, a count and the clock.
- POST response bodies are reduced to their status codes. The JSON messages and `{ ok: true }` are constants. GET responses are modelled as the rows they return.
- `Date.now()` is not read: the current time in milliseconds is the parameter `nowMs` of `PingLogger.LogStore.Post`.
- JsValues.StringToNumber: numbers are integers, so this is weaker than JavaScript's `Number(...)`. It accepts only an optionally signed run of decimal digits, blank strings and the Infinity words. Fractions, exponents and hex, octal or binary prefixes give NaN here, although JavaScript reads them as numbers. JSON numbers with fractional parts are not represented.
- JsValues.ToNumber: `Number(o)` of a parsed object with its own `toString` key throws a TypeError in JavaScript, because `toString` is then not callable. The model gives NaN instead. So for a body such as `{"deviceId":"a","timestamp":{"toString":1}}`, PingLogger.LogStore.Post answers 400, where index.js:46 throws and the error handler at index.js:111-114 answers 500. The store is unchanged either way. Likewise `?limit[toString]=1` makes index.js:97 throw, so GET `/api/logs` answers 500, where PingLogger.ClampLimit gives 1000.
- JsValues.ToNumber: numbers are unbounded integers. JavaScript rounds digit runs above 2^53 to the nearest double. It turns runs above about 1.8e308 into Infinity, which index.js:47 rejects as a timestamp and index.js:97 clamps to 10000 as a limit. The model keeps the exact value, accepts such a timestamp, and clamps such a limit to 10000 too.
- JsValues.ToJsString: `String(o)` of a parsed object with its own `toString` key also throws a TypeError: `toString` is not callable, and `valueOf` returns the object itself. The model gives "[object Object]" instead. So for `GET /api/logs?deviceId[toString]=x` (the default query parser builds `{ toString: "x" }`), index.js:92 throws and the error handler at index.js:111-114 answers 500, where PingLogger.ListLogs returns the rows of device "[object Object]".
- JsValues.ToJsString: for a number of magnitude 10^21 or more, `String(n)` uses exponent notation (`"1e+21"`), whereas the model always spells out the digits. The handlers apply `String` only to query values, which are never numbers, so no handler sees the difference.
- JsValues.ToNumber and JsValues.ToJsString: arrays in a body or query (for example a repeated `deviceId` query key) are not represented. `Obj` stands for a plain object only.
- pwa/app.js and pwa/service-worker.js are not part of this model. They are browser code: DOM updates, `fetch`, locale date formatting, the CSV export and Cache Storage.
- Concurrency is not modelled. Node runs each handler to completion on one thread, so every handler is atomic.
