# Calculator and weather services, modelled in Dafny

This project models two services of a desktop shell.

**The calculator service** is the `Math` class in `services/math.ts`.
- It keeps a most-recent-first history of evaluated lines.
  - `commit` keeps it at most 20 long, and `commit` and `select` keep it free of two entries sharing an equation and result, once those hold.
  - A history loaded from the file at startup is taken as it is. It may be longer than 20 or hold duplicates.
- It keeps a map of variable bindings.
- It keeps one pending record: the last evaluated line, waiting for `commit`.
- `evaluate` sorts a line into one of these commands, then runs it against the math library:
  - a `clear` notice;
  - an assignment;
  - `simplify`, `derive` or `rationalize`;
  - plain evaluation.
- Anything the library throws becomes an error record, with one exception. In an assignment, a `simplify` that throws binds the trimmed right side instead.
- `select` moves a matching entry to the front.
- `commit` selects the pending record, or inserts it and drops the oldest entry past the limit.
- `clear` empties everything.
- At startup the constructor replays every stored equation to rebuild the bindings.

**The weather service** is in `src/services/weather.ts`.
- It maps a condition text to an icon glyph, by normalising the text and looking it up in `STATUS_ICONS`, with a `_night` variant at night.
- It maps a temperature to one of five thermometer glyphs and colour words.
- It decides, on each update:
  - to adopt the cache file while it is fresh;
  - otherwise to fetch, writing the cache;
  - or to fall back to the empty default record when the fetch fails.

Files:

| file | contents |
|---|---|
| `wrappers.dfy` | `Option` and `Result` |
| `js_string.dfy` | the JavaScript string operations the services use: `startsWith`, `slice`, `split`, `trim`, `toLowerCase`, `replaceAll` |
| `math_history.dfy` | the history as values: select, insert and commit as functions, and the invariants they keep |
| `math_commands.dfy` | what `evaluate` does to one line (`Classify`, `Dispatch`), and what the constructor's replay does to a list of lines (`Step`, `Replay`, `Rebound`) |
| `math_service.dfy` | the `Math` class, with fields updated in place by methods proved against the two modules above |
| `weather.dfy` | the icon table and lookup, the temperature bands, the update decision (`Refresh`) and the `Weather` class |

Boundaries of the model:
- The math library (mathjs `simplify`, `derivative`, `rationalize` and `evaluate`, each followed by `toString`) is a parameter: a record of functions returning `Ok(text)` or `Err(String(e))`.
- Observer notification and cache writes are recorded in ghost fields:
  - a count of `notify` calls;
  - the sequence of snapshots or texts handed to the file write.
- What `updateWeather` reads from outside is passed in as values:
  - the cache file's state;
  - the clock;
  - the configured interval;
  - the fetch's outcome;
  - `JSON.stringify`.

`select` notifies and saves on every match, even when the matched entry is already first. So a `commit` of a record equal to the first entry still notifies and saves once.

## Model

| member | source | states |
|---|---|---|
| JsString.Split | services/math.ts:100 | `split` always yields at least one part, yields more than one exactly when the separator occurs, and no part contains the separator |
| JsString.SplitJoin | services/math.ts:100 | joining the parts of a split with the separator gives back the original string |
| JsString.SplitFirstTwo | services/math.ts:100 | when `=` occurs, the first part is the text before its first occurrence and the second part is the text after it, up to the next `=` |
| JsString.TrimStart | services/math.ts:102-106 | only leading whitespace is removed, and the result starts with a non-whitespace character or is empty |
| JsString.TrimEnd | services/math.ts:102-106 | only trailing whitespace is removed, and the result ends with a non-whitespace character or is empty |
| JsString.TrimIsMiddle | services/math.ts:102-106 | `trim` returns the slice of the input that starts after the leading whitespace; everything before and after that slice is whitespace, and the slice neither starts nor ends with whitespace |
| JsString.TrimIdempotent | services/math.ts:102-106 | trimming twice is trimming once |
| JsString.TrimPadding | src/services/weather.ts:326 | whitespace added on either side of a string does not change its trimmed form |
| JsString.TrimToLower | src/services/weather.ts:326 | trimming and lower-casing commute |
| JsString.ToLowerIdempotent | src/services/weather.ts:326 | lower-casing twice is lower-casing once |
| MathHistory.FindIndex | services/math.ts:58 | `findIndex` returns the first position whose equation and result both match, or none when no position matches |
| MathHistory.Selected | services/math.ts:57-69 | select keeps the length; without a match the history is unchanged; with a match the argument comes first and every later entry is an old one |
| MathHistory.Inserted | services/math.ts:44-45 | the record is prepended; the length grows by one below 20 and otherwise stays the same, the oldest entry being dropped |
| MathHistory.Committed | services/math.ts:39-50 | a commit puts the record first, grows the history by at most one, and every other entry is an old one |
| MathHistory.SelectMovesToFront | services/math.ts:57-69 | a successful select keeps the length, puts the argument first, and keeps every other entry in its old relative order |
| MathHistory.SelectKeepsDistinct | services/math.ts:57-69 | select preserves "no two entries share equation and result" |
| MathHistory.SelectIdempotent | services/math.ts:57-69 | selecting the same item twice is the same as selecting it once |
| MathHistory.CommitPutsPendingFirst | services/math.ts:39-50 | after a commit the pending record is the newest entry |
| MathHistory.CommitLength | services/math.ts:39-50 | a matching commit keeps the length; otherwise the record is prepended, and the last entry is dropped when the history already held 20 or more |
| MathHistory.CommitBounded | services/math.ts:20 | a commit never grows the history past 20, nor past a longer loaded length |
| MathHistory.CommitKeepsDistinct | services/math.ts:39-50 | commit preserves "no two entries share equation and result" |
| MathHistory.CommitIdempotent | services/math.ts:39-50 | committing the same record twice in a row changes nothing the second time |
| MathCommands.Classify | services/math.ts:90-121 | the branch is `clear` exactly for a `clear` prefix, an assignment exactly for other lines containing `=`; the prefixed commands and plain evaluation see no `=`; a `derive` passes on a non-empty variable without spaces, and is malformed only when the second word is missing or empty; plain evaluation gets the whole line, and only when no command prefix matches |
| MathCommands.Dispatch | services/math.ts:89-130 | a `clear` line yields the fixed notice; an assignment keeps the line, has icon `equal` and binds its trimmed left side to the record's result; every other line leaves the bindings unchanged |
| MathCommands.Step | services/math.ts:89-130 | a `clear` line changes neither bindings nor the pending record; any other line sets the pending record; only an assignment changes the bindings, and it binds its name |
| MathCommands.Replay | services/math.ts:140 | replaying only `clear` lines changes nothing; replaying any other line leaves a pending record |
| MathCommands.ClearLineIsNotice | services/math.ts:90-95 | a line starting with `clear` yields the fixed notice and leaves the bindings alone |
| MathCommands.DispatchIcon | services/math.ts:97-128 | the icon follows the branch: `equal` for an assignment; `function` or `error` for the prefixed commands; `calculate` or `error` otherwise |
| MathCommands.ErrorRecordDropsInput | services/math.ts:123-127 | an error record carries "Invalid equation" in place of the input, and every other record keeps the input line |
| MathCommands.OnlyAssignmentBinds | services/math.ts:99-122 | a line that is not an assignment leaves the bindings unchanged |
| MathCommands.AssignmentBinds | services/math.ts:99-106 | an assignment binds the trimmed left side to the simplified right side (or the trimmed right side when simplify throws), and returns that value with icon `equal` |
| MathCommands.AssignmentIdempotent | services/math.ts:99-106 | evaluating the same assignment twice leaves the same bindings and record as evaluating it once |
| MathCommands.DeriveWithoutVariable | services/math.ts:111-114 | a `derive` line whose second space-separated word is missing or empty becomes the format error record and never reaches the library |
| MathCommands.SimplifyBranch | services/math.ts:108-110 | a `simplify` line without `=` gives the record of `simplify` on the text after the 8-character prefix, with the bindings, icon `function` |
| MathCommands.DeriveBranch | services/math.ts:111-115 | a `derive` line without `=` but with a second word gives the record of `derivative` on the text after that word, with respect to it and without the bindings, icon `function` |
| MathCommands.RationalizeBranch | services/math.ts:116-118 | a `rationalize` line without `=` gives the record of `rationalize` on the text after the 11-character prefix, with the bindings, icon `function` |
| MathCommands.CalculateBranch | services/math.ts:119-121 | a line with no `=` and none of the prefixes gives the record of `evaluate` on the whole line, with the bindings, icon `calculate` |
| MathCommands.EvaluationErrorIsCaught | services/math.ts:119-127 | a plain line the library rejects becomes an error record carrying the library's message |
| MathCommands.StepBindings | services/math.ts:89-130 | one evaluation changes the bindings only through an assignment |
| MathCommands.ReplayBindings | services/math.ts:140 | the bindings after the startup replay depend only on the assignment lines, folded in stored order |
| MathCommands.ReplayBinding | services/math.ts:140 | after replay a name holds the value of its last assignment in stored order, which is the oldest in history order |
| MathCommands.ReplayUnassigned | services/math.ts:140 | a name no stored line assigns stays as it was before replay |
| MathCommands.ReplayPending | services/math.ts:129-143 | after replay the pending record is the record `evaluate` gives the last replayed non-`clear` line, under the bindings left by the lines before it: either its own equation, or the invalid marker with icon `error` |
| MathCommands.ReplayOldestAssignmentWins | services/math.ts:140 | with `x = a` stored before `x = b` (so `x = a` is newer), replay binds x to b |
| MathService.Math.constructor | services/math.ts:132-145 | the loaded list becomes the history unchanged (empty when absent); the bindings and pending record are those of replaying every stored equation in order; nothing is notified or saved |
| MathService.Math.Select | services/math.ts:57-69 | reports whether an entry matched; the new history is `Selected`; one notification and one save exactly when it matched; bindings and pending record are unchanged; the cache invariant is kept |
| MathService.Math.Commit | services/math.ts:39-50 | with nothing pending, nothing changes; otherwise the new history is `Committed`, with exactly one notification and one save; the pending slot is emptied; the cache invariant and the 20-entry bound are kept |
| MathService.Math.Clear | services/math.ts:74-82 | history, bindings and pending record are emptied; one notification and one save only when there was history |
| MathService.Math.Evaluate | services/math.ts:89-130 | the returned record and the new bindings are those `Dispatch` defines; the pending record is set except after a `clear` line; the history, notifications and saves are untouched |
| WeatherService.Lookup | src/services/weather.ts:328 | a found glyph is the table's entry for the key; not found means no entry has the key |
| WeatherService.Normalize | src/services/weather.ts:326 | the lookup key has the trimmed text's length, no spaces and no upper-case ASCII letters |
| WeatherService.GetIcon | src/services/weather.ts:325-329 | at night (`is_day` 0) a text with a `_night` entry gets that entry's glyph; otherwise a text with an entry gets that entry's glyph, and any other text gets the warning glyph; so the icon is always one of the table's glyphs or the warning glyph |
| WeatherService.GetIconAsWritten | src/services/weather.ts:325-329 | as written, the lookup returns either a glyph (the table's or the warning glyph) or an inherited `Object.prototype` member, and then only for a text that normalises to that member's name |
| WeatherService.GetIconIgnoresPadding | src/services/weather.ts:326 | whitespace around the condition text does not change the icon |
| WeatherService.GetIconIgnoresCase | src/services/weather.ts:326 | the letter case of the condition text does not change the icon |
| WeatherService.NightKeyIsPartlyCloudy | src/services/weather.ts:198-252 | the only `_night` key in the table is `partly_cloudy_night` |
| WeatherService.NightOnlyForPartlyCloudy | src/services/weather.ts:327 | the day and night icons differ only for a condition that normalises to `partly_cloudy` |
| WeatherService.StatusIconsOwnKeysOnly | src/services/weather.ts:198-252 | no key of the table is the name of an `Object.prototype` member |
| WeatherService.NightKeyNotInherited | src/services/weather.ts:327 | no `Object.prototype` member name ends in `_night` |
| WeatherService.InheritedKeyNotOwn | src/services/weather.ts:325-329 | an `Object.prototype` member name is neither a table key nor the day form of a night key |
| WeatherService.AsWrittenAgreesOnOwnKeys | src/services/weather.ts:325-329 | for every text that does not normalise to an `Object.prototype` member name, `getIcon` as written returns the corrected lookup's glyph |
| WeatherService.AsWrittenReturnsInheritedMember | src/services/weather.ts:325-329 | a text that normalises to such a name makes `getIcon` as written return the inherited member, where the warning glyph is meant |
| WeatherService.ConstructorIsInherited | src/services/weather.ts:325-329 | the condition text "constructor" is such an input |
| WeatherService.GetTempIcon | src/services/weather.ts:335-341 | the thermometer glyph is the one for the temperature's band: below 10, from 10, from 20, from 30, from 40 |
| WeatherService.GetTempDesc | src/services/weather.ts:343-349 | the word is the one for the temperature's band: freezing, cold, normal, hot, burning |
| WeatherService.BandRange | src/services/weather.ts:343-349 | each band is the half-open range between two consecutive thresholds, 10, 20, 30 and 40 |
| WeatherService.BandMonotone | src/services/weather.ts:335-349 | a warmer temperature never falls in a colder band |
| WeatherService.TempIconMatchesColour | src/services/weather.ts:315-323 | two temperatures get the same glyph exactly when they get the same colour word |
| WeatherService.Fresh | src/services/weather.ts:379 | the cache counts as fresh exactly when its age, from its local time in milliseconds to now, is below the interval |
| WeatherService.Refresh | src/services/weather.ts:375-397 | the record never changes without a notification; a fetch happens exactly when there is no cache file or it is stale; the cache is written exactly after a successful fetch, with the new record's serialisation |
| WeatherService.FreshCacheAdopted | src/services/weather.ts:376-384 | with a fresh cache nothing is fetched or written; the cached record is adopted and notified exactly when its text differs from the current record's serialisation |
| WeatherService.StaleCacheFetches | src/services/weather.ts:386-396 | without a fresh cache the fetched record, or `DEFAULT` after a failed fetch, becomes current and observers are notified |
| WeatherService.UnreadableCacheChangesNothing | src/services/weather.ts:376-378 | a cache file that cannot be read or parsed stops the update with nothing changed |
| WeatherService.RefreshSettlesAfterFetch | src/services/weather.ts:375-397 | after a successful fetch, the next update that reads back the file it wrote, while that file is fresh, changes nothing and notifies nobody |
| WeatherService.Weather.constructor | src/services/weather.ts:266 | the service starts from `DEFAULT`, with no notifications and no cache writes |
| WeatherService.Weather.UpdateWeather | src/services/weather.ts:375-397 | the new record, the fetch, the notification count and the cache writes are exactly those `Refresh` defines |

## Left out

- The math library itself is a parameter (`MathCommands.Delegate`), and it is modelled as deterministic: its four operations are total functions and `MathService.Math` holds one fixed `lib`. The real library is not: it has `random`, `randomInt` and `pickRandom`. Evaluating `random()` and committing twice gives two history entries in the source, because the two results differ; in the model the second evaluation gives the same record, `Commit` finds an equal entry through `select` and the history does not grow (the matching case of `MathHistory.CommitLength`). Nothing is proved about what `simplify`, `derivative`, `rationalize` or `evaluate` compute, or about how `toString` and `String(e)` format their results.
- MathCommands.AssignmentIdempotent: assumes a deterministic `simplify`. For `x = random()` the source may bind a different value each time the line is evaluated, so evaluating it twice need not leave the bindings unchanged.
- File I/O and JSON are left out. The stored history reaches the constructor as an already-parsed list, or as none when the file is absent or does not parse. `#save` and the weather cache write are recorded as ghost snapshots; their asynchronous completion and their ignored failures are not modelled.
- MathService.Math.constructor: assumes every stored item is a record with a string `equation`. In the source, a malformed item makes `evaluate` throw part-way through the replay. That exception is caught and logged, which leaves a partially replayed state; the model does not capture it.
- MathCommands.AssignmentBinds: the bindings are a plain JavaScript object, so a left side that trims to `__proto__` (as in `__proto__ = 5`) goes to the inherited `__proto__` setter. That setter ignores a string, so nothing is bound and the record's result is `Object.prototype`. The model binds the name `__proto__` and returns the value.
- MathCommands.Classify: strings are sequences of Unicode code points, while JavaScript's `length` and `slice` count UTF-16 code units. The fixed offsets 8, 7 and 11 follow ASCII prefixes and agree, but the variable's length does not when it holds a character outside the Basic Multilingual Plane. For `derivex 😀 y` the source's variable has length 2, so `slice(9)` passes a lone low surrogate followed by ` y`; the model passes `😀 y`.
- MathCommands.Dispatch: follows `AssignmentBinds` for a `__proto__` left side, so it has the same gap.
- WeatherService.Refresh: a successful fetch is taken to give a well-formed report. In the source, an API error body such as `{"error": …}` would become the current record and be written to the cache. Every later update would then throw while reading the cache's `location` (src/services/weather.ts:379), so no update would fetch again until the file is removed. In the model that file is `Unreadable`, the case `UnreadableCacheChangesNothing` covers, but the model never produces it itself.
- The `history` getter returns the live array, so callers could alias it. The model does not capture that.
- The `get_default` singletons are not modelled.
- GObject registration and properties are not modelled. `notify` is counted, not delivered.
- JsString.ToLower: lower-cases ASCII letters only. `toLowerCase` also maps non-ASCII letters, which the model leaves unchanged.
- JsString.IsWhitespace: covers the ECMAScript white-space and line-terminator code points. Unicode normalisation is not modelled.
- WeatherService.WeatherData: keeps only the four fields the service reads itself: local time, day flag, condition text and Celsius temperature. The forecast, location and other current-weather fields are not modelled.
- The `getTemp`, `wind` and `rainChance` getters, and the other property getters, are not modelled. They format fields with `Math.round` and the imperial/metric configuration.
- `getWeather` is not modelled: the IP-based location lookup and the HTTP request. Its outcome is a parameter, `None` when it throws.
- The Weather constructor's reading of the API key and the periodic `interval` timer are not modelled. Overlapping updates, each an `async` call, are not modelled either.
- WeatherService.GetTempIcon: temperatures are reals, so the JavaScript `NaN` case is not modelled. For `NaN` every comparison is false, giving the coldest band.
- WeatherService.Fresh: times are integers in milliseconds. Floating-point rounding of `localtime_epoch * 1000 + interval` is not modelled.
- WeatherService.CacheRead: a cache file is given as its text together with the record it parses to. A file whose JSON does not parse, or that lacks `location`, is `Unreadable`.
- `console.error` logging is not modelled.
- The widget files under `utils/` and `src/utils/` are not part of this model.

## Findings

| source | as written | input that shows it | evidently intended | confidence | as-written member | corrected member |
|---|---|---|---|---|---|---|
| src/services/weather.ts:325-329 | `query in STATUS_ICONS` and `STATUS_ICONS[query]` also see the members every object inherits from `Object.prototype`. `??` only replaces `null` or `undefined`, so an inherited member is returned as the "icon" | condition text "constructor" (also any text that normalises to `__proto__`) returns the `Object` constructor function, not a glyph | unknown conditions get the warning glyph, and the lookup consults only the table's own keys | not executed | WeatherService.GetIconAsWritten | WeatherService.GetIcon |

`WeatherService.ConstructorIsInherited` exhibits the discrepancy. `WeatherService.AsWrittenAgreesOnOwnKeys` shows the two versions agree on every other input.
