# machinepack-forecast.io in Dafny

This is a model of the two option-taking machines of machinepack-forecast.io:
`get-forecast`, which fetches the forecast for a latitude, a longitude and a
time, and `get-current-forecast`, which fetches the current forecast. Each
machine runs in four steps:

1. `validateInputs` is an ordered chain of checks, and the first one that fails picks the exit:
   - a falsy API key gives `invalidAPIKey`;
   - if `"<lat>, <lng>"` does not match the coordinate regular expression, the exit is `invalidLatOrLong`;
   - then come the option checks (units, exclude and, in get-forecast only, language and time), and any failure gives `invalidOptions`.
2. `stringifyOptions` pushes `callback=`, `units=`, `exclude=` and `lang=` parameters, in that order, onto a list and joins the list with commas.
3. The request URL joins the endpoint, the key, the coordinates, the epoch seconds (get-forecast only) and the query.
4. The request callback classifies the response:
   - `success` carries either the raw body or the parsed body;
   - `invalidAPIKey` on status 403;
   - `error` otherwise.

Modules:

- `JsValues` models the JavaScript the machines rely on:
  - inputs that may be `undefined` (`Option`);
  - string truthiness;
  - how `${…}` renders `undefined`;
  - `Array.prototype.join` and lodash's `_.difference`.

  It also defines `Split`, the reading a receiver applies to a comma-joined list.
- `LatLong` models the coordinate regular expression:
  - a hand-written recognizer `MatchesLatLong`;
  - a literal transcription of the anchored pattern, `PatternMatch`;
  - a numeric description of what the pattern admits, `SignedWithin` (at most 90 or at most 180, with the boundary allowed only with a zero fraction).

  Lemmas connect the three.
- `ForecastApi` holds what the two machines share:
  - the option record, the exits, and the lists of valid units, exclusion blocks and languages;
  - the response classifier `Classify`;
  - the parameter list that `stringifyOptions` pushes, `QueryParams`, with lemmas that read the list back by name, fix its order, and recover the exclude list from its joined form.
- `GetForecast` and `GetCurrentForecast` each hold their machine's validator, query builder (a method that pushes one parameter at a time, proved equal to a function), URL and `Execute`:
  - `Execute` is a whole run: either the machine stops before the request, with one exit or none (`Halted`), or it issues one GET and ends in the exit that the response leads to (`Requested`).
  - Two collaborators are parameters of `Execute`. Moment.js is a `TimeReading` (whether the time is valid, and its epoch seconds). `JSON.parse` is a partial function `parse`.

These quirks of the source are modelled as written:

- In get-forecast, the validator returns `true` only when no options are given. With options, a run that passes every check falls off the end of the chain and calls no exit.
- In get-current-forecast, reading `options.units` on absent options throws, and the outer `catch` ends the run in `error`.
- An absent `exclude` throws at `.length` in both machines.
- Parameters are joined with `,` rather than `&`.
- get-current-forecast puts the `?` into the URL itself, so the URL keeps it even when the query is empty.

## Model

| member | source | states |
|---|---|---|
| JsValues.DifferenceEmpty | machines/get-forecast.js:151 | `_.difference(xs, ys)` is empty exactly when every element of `xs` is in `ys` |
| JsValues.SplitJoin | machines/get-forecast.js:181 | a non-empty list of comma-free strings joined with a comma splits back into the same list |
| LatLong.MatchesIffPattern | machines/get-forecast.js:133 | the recognizer accepts a string iff the string splits into an optionally signed latitude alternative, a comma, whitespace drawn from the JavaScript `\s` set, and an optionally signed longitude alternative, with nothing else |
| LatLong.LatitudeRange | machines/get-forecast.js:133 | the latitude alternatives `[1-8]?\d(\.\d+)?` and `90(\.0+)?` admit exactly the numerals with no leading zero whose integer part is below 90 (any fraction) or exactly 90 (zero fraction only) |
| LatLong.LongitudeRange | machines/get-forecast.js:133 | the longitude alternatives admit exactly the numerals with no leading zero whose integer part is below 180 (any fraction) or exactly 180 (zero fraction only) |
| LatLong.CoordinatesAccepted | machines/get-forecast.js:143 | `"<lat>, <lng>"` matches iff the latitude is a signed numeral within 90 and the longitude, after leading whitespace, is a signed numeral within 180 |
| LatLong.DocumentedCoordinates | machines/get-forecast.js:16-25 | the documented coordinates 42.3507282 and -71.13212709999999 are accepted |
| LatLong.BoundaryAccepted | machines/get-forecast.js:133 | the boundary values 90.0 and 180.000 are accepted |
| LatLong.LatitudeBeyondRejected | machines/get-forecast.js:133 | the latitudes 90.5, 91 and 05 are rejected |
| LatLong.LongitudeBeyondRejected | machines/get-forecast.js:133 | the longitude 180.1 is rejected |
| ForecastApi.LangAcceptedIff | machines/get-forecast.js:154-156 | the language passes iff it is one of the sixteen codes; `""` and an absent `lang` are both refused |
| ForecastApi.UnitsAcceptedIff | machines/get-forecast.js:148-150 | units pass iff they are `""` or one of us, si, ca, uk, auto, and absent units are refused |
| ForecastApi.ExcludeRejected | machines/get-forecast.js:151-153 | the exclude list is refused iff some element is not one of the six blocks |
| ForecastApi.Stopped | machines/get-forecast.js:199-217 | a rejection calls its own exit, a throw reaches the outer `catch` and calls `error`, and a fall-through calls no exit |
| ForecastApi.Classify | machines/get-forecast.js:89-113 | succeeds iff there is no transport error, the status is 200 and the body is either wanted raw (callback set) or parses; with a callback the raw body is returned verbatim, otherwise the parsed value; 403 iff `invalidAPIKey`; 400 iff the bad-request error; any other failing status is an error carrying that status; the validation-only exits never arise |
| ForecastApi.QueryParams | machines/get-forecast.js:172-185 | the parameter list is undefined exactly when `exclude` is absent, because reading `exclude.length` then throws |
| ForecastApi.QueryParamsRead | machines/get-forecast.js:174-185 | reading the pushed parameters back by name gives callback, units and lang exactly when they are truthy, and the exclude list comma-joined exactly when it is non-empty; `extend` is never emitted |
| ForecastApi.QueryParamsOrdered | machines/get-forecast.js:174-185 | the parameters appear in the order callback, units, exclude, lang, at most one of each |
| ForecastApi.ExcludeRoundTrip | machines/get-forecast.js:180-182 | a validated non-empty exclude list is recovered by splitting the `exclude` parameter on commas |
| GetForecast.Validate | machines/get-forecast.js:127-164 | `MissingKey` iff the key is falsy, so it is checked first; the coordinates are refused iff the key is truthy and the pattern does not match; the validator passes iff key and coordinates are good and no options are given; with good key and coordinates, `BadOptions` iff options are given and the units fail, or `exclude` is present and an exclude element, the language or the time fails; a throw happens only for options without `exclude` |
| GetForecast.Stringified | machines/get-forecast.js:170-195 | no options give `""`; with options the result is defined iff `exclude` is present and then starts with `?` |
| GetForecast.StringifyOptions | machines/get-forecast.js:170-195 | the push-by-push construction returns what `Stringified` describes |
| GetForecast.Url | machines/get-forecast.js:87 | the URL starts with the forecast.io endpoint |
| GetForecast.UrlQuery | machines/get-forecast.js:87 | when key, coordinates and epoch hold no `?`, the URL from its first `?` on (empty when there is none) is exactly the query, for the empty query and for a query starting with `?` |
| GetForecast.Execute | machines/get-forecast.js:197-217 | a falsy key ends in `invalidAPIKey`; bad coordinates end in `invalidLatOrLong`; a request is issued iff key and coordinates are good and no options are given, to `<endpoint><key>/<lat>,<lng>,<epoch>` with no query, and its exit is the classification without a callback |
| GetForecast.OptionsNeverRequest | machines/get-forecast.js:146-163 | with options present no request is issued; the run calls `invalidAPIKey`, `invalidLatOrLong`, `invalidOptions`, `error` or nothing |
| GetForecast.OptionsPassingFallThrough | machines/get-forecast.js:146-163 | options that pass every check leave the run with no exit called |
| GetForecast.OptionChecks | machines/get-forecast.js:148-159 | with good key and coordinates, each failing option check (units, exclude elements, language, time), taken in order, ends in `invalidOptions`, and an absent exclude list ends in `error` |
| GetForecast.DocumentedInputsFallThrough | machines/get-forecast.js:36-43 | the documented inputs with a valid time pass every check and end with no request and no exit |
| GetCurrentForecast.Validate | machines/get-current-forecast.js:115-142 | `MissingKey` iff the key is falsy, so it is checked first; the coordinates are refused iff the key is truthy and the pattern does not match; the validator passes iff key and coordinates are good, options and exclude are present, units pass and exclude passes; with good key and coordinates, `BadOptions` iff options are given and either the units fail or `exclude` is present with an element outside the six blocks; it throws iff key and coordinates are good and either options are absent or units pass with exclude absent; it never falls through |
| GetCurrentForecast.Stringified | machines/get-current-forecast.js:148-169 | the query is defined iff options and `exclude` are present |
| GetCurrentForecast.StringifyOptions | machines/get-current-forecast.js:148-169 | the push-by-push construction returns what `Stringified` describes |
| GetCurrentForecast.Url | machines/get-current-forecast.js:75 | the URL starts with the forecast.io endpoint and always contains a `?` |
| GetCurrentForecast.UrlQuery | machines/get-current-forecast.js:75 | when key and coordinates hold no `?`, the URL after its first `?` is exactly the query, so an empty query still leaves the `?` |
| GetCurrentForecast.Execute | machines/get-current-forecast.js:171-192 | a falsy key ends in `invalidAPIKey`; bad coordinates end in `invalidLatOrLong`; a request is issued iff validation passes, and otherwise the run ends in the exit the verdict selects (`Stopped`), so an exit is always called; the URL is `<endpoint><key>/<lat>,<lng>?` followed by the comma-joined parameters, and the exit is the classification with the callback's truthiness |
| GetCurrentForecast.OptionChecks | machines/get-current-forecast.js:133-138 | with good key and coordinates: absent options end in `error`; refused units end in `invalidOptions`; passing units with an absent exclude list end in `error`; passing units with an exclude element outside the six blocks end in `invalidOptions` |
| GetCurrentForecast.KeyBeforeOptions | machines/get-current-forecast.js:126-128 | a falsy key is reported even when the options are absent too |
| GetCurrentForecast.AbsentOptionsError | machines/get-current-forecast.js:133 | good key and coordinates without options end in `error`, through the throw and the outer `catch` |
| GetCurrentForecast.LangUnchecked | machines/get-current-forecast.js:115-142 | changing `lang` never changes the verdict, and a truthy `lang` is emitted as given |
| GetCurrentForecast.EmptyQueryKeepsMark | machines/get-current-forecast.js:75 | when no parameter is emitted, the URL still ends with `?` |
| GetCurrentForecast.QueryAgreesWithGetForecast | machines/get-current-forecast.js:164 | both machines build the same query from the same options; only get-forecast prefixes it with `?` |
| GetCurrentForecast.ExamplePasses | machines/get-current-forecast.js:15-40 | the documented inputs pass validation |
| GetCurrentForecast.ExampleQuery | machines/get-current-forecast.js:150-164 | the documented options give `callback=logResult`, `units=si`, the six blocks comma-joined, then `lang=es`, joined by commas |
| GetCurrentForecast.DocumentedRequest | machines/get-current-forecast.js:171-181 | the documented inputs issue one request carrying that query, and its response is passed on raw because a callback is set |

## Left out

- The HTTP transport (`request`), Bluebird promises and asynchronous callbacks. A run is a returned `Run` value, and the response is a parameter.
- Transport failures where `response` is undefined. Reading `response.statusCode` then throws inside the asynchronous callback, outside every `try`. The model's `Response` always carries a status.
- Moment.js. Whether `moment(time)` is valid, and the text of `format('X')`, are the parameter `TimeReading`.
- `JSON.parse`. It is the parameter `parse`, where `None` stands for a throw.
- The text of exit messages. Exits are tags, and an error carries only its kind and, for an unexpected status, the status code.
- Machine metadata: friendly names, descriptions, input examples and exit declarations. The documented examples are used only in the example lemmas.
- The get-tomorrows-forecast, get-todays-forecast and get-current-weather machines. They are a request plus template rendering, with no validation or query logic.
- Input values that are not strings (numbers, objects, arrays in place of strings). Every input field is a string, or a string list for `exclude`, or absent.
- get-forecast never calls `stringifyOptions` in a run. A request needs validation to pass, which needs the options to be absent, and the ternary at line 202 calls `stringifyOptions` only when options are present; the request query is therefore `""`. `GetForecast.Stringified` still models the function on its own, its `catch` (lines 192-194) as a `None` query.
