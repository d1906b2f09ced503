/** The get-forecast machine: a forecast for a latitude, a longitude and a
    time. Validation returns `true` only when no options are given, so every
    request it issues has an empty query string; with options it stops before
    the request, with an exit or, when every check passes, with none. */
module GetForecast {

  import opened JsValues
  import opened ForecastApi
  import LatLong

  /** What Moment.js makes of the `time` and `timeFormat` inputs: whether
      `moment(time)` is valid, and the text of
      `moment(time, timeFormat).format('X')` (epoch seconds). */
  datatype TimeReading = TimeReading(valid: bool, epoch: string)

  /** `validateInputs`: the first failing check decides. With options present
      and every option check passing, the chain falls off its end. */
  function Validate(inp: Inputs, timeValid: bool): (v: Verdict)
    ensures v == Rejected(MissingKey) <==> !Truthy(inp.apiKey)
    ensures v == Rejected(BadLatLong)
            <==> Truthy(inp.apiKey) && !LatLong.MatchesLatLong(inp.lat + ", " + inp.lng)
    ensures v == Passed
            <==> Truthy(inp.apiKey) && LatLong.MatchesLatLong(inp.lat + ", " + inp.lng)
                 && inp.options.None?
    ensures v == Threw ==> inp.options.Some? && inp.options.value.exclude.None?
    ensures v == Rejected(BadOptions)
            <==> && Truthy(inp.apiKey) && LatLong.MatchesLatLong(inp.lat + ", " + inp.lng)
                 && inp.options.Some?
                 && (|| !UnitsAccepted(inp.options.value.units)
                     || (&& inp.options.value.exclude.Some?
                         && (|| ExcludeRejected(inp.options.value.exclude.value)
                             || !LangAccepted(inp.options.value.lang)
                             || !timeValid)))
  {
    if !Truthy(inp.apiKey) then Rejected(MissingKey)
    else if !LatLong.MatchesLatLong(inp.lat + ", " + inp.lng) then Rejected(BadLatLong)
    else if inp.options.Some? then
      var o := inp.options.value;
      if !UnitsAccepted(o.units) then Rejected(BadOptions)
      else if o.exclude.None? then Threw
      else if ExcludeRejected(o.exclude.value) then Rejected(BadOptions)
      else if !LangAccepted(o.lang) then Rejected(BadOptions)
      else if !timeValid then Rejected(BadOptions)
      else NoVerdict
    else Passed
  }

  /** What `stringifyOptions` returns: `""` without options, otherwise `?`
      and the pushed parameters joined by commas; `None` when it throws. */
  function Stringified(options: Option<Options>): (q: Option<string>)
    ensures options.None? ==> q == Some("")
    ensures options.Some? ==> (q.None? <==> options.value.exclude.None?)
    ensures options.Some? && q.Some? ==> |q.value| >= 1 && q.value[0] == '?'
  {
    match options
    case None => Some("")
    case Some(o) =>
      match QueryParams(o)
      case None => None
      case Some(ps) => Some("?" + Join(ps, ','))
  }

  /** `stringifyOptions`, pushing one parameter at a time. */
  method StringifyOptions(options: Option<Options>) returns (q: Option<string>)
    ensures q == Stringified(options)
  {
    if options.None? {
      return Some("");
    }
    var o := options.value;
    var queryStrings: seq<string> := [];
    if Truthy(o.callback) {
      queryStrings := queryStrings + ["callback=" + o.callback.value];
    }
    if Truthy(o.units) {
      queryStrings := queryStrings + ["units=" + o.units.value];
    }
    if o.exclude.None? {
      // reading `exclude.length` throws; the `catch` calls the error exit
      return None;
    }
    if |o.exclude.value| != 0 {
      queryStrings := queryStrings + ["exclude=" + Join(o.exclude.value, ',')];
    }
    if Truthy(o.lang) {
      queryStrings := queryStrings + ["lang=" + o.lang.value];
    }
    assert queryStrings == QueryParams(o).value;
    return Some("?" + Join(queryStrings, ','));
  }

  /** The request URL: key, coordinates, epoch seconds, then the query. */
  function Url(apiKey: Option<string>, lat: string, lng: string, epoch: string, query: string): (u: string)
    ensures |u| >= |Endpoint| && u[..|Endpoint|] == Endpoint
  {
    Endpoint + Render(apiKey) + "/" + lat + "," + lng + "," + epoch + query
  }

  /** When key, coordinates and epoch hold no `?`, the URL from its first
      `?` on (or its empty end, when there is none) is exactly the query. */
  lemma UrlQuery(apiKey: Option<string>, lat: string, lng: string, epoch: string, query: string)
    requires '?' !in Render(apiKey) && '?' !in lat && '?' !in lng && '?' !in epoch
    requires query == "" || query[0] == '?'
    ensures var u := Url(apiKey, lat, lng, epoch, query);
      u[JsValues.IndexOf(u, '?')..] == query
  {
    var pre := Endpoint + Render(apiKey) + "/" + lat + "," + lng + "," + epoch;
    EndpointUnmarked();
    IndexOfAfter(pre, query, '?');
    assert Url(apiKey, lat, lng, epoch, query) == pre + query;
  }

  /** The machine's `fn`: validate, then (only when validation returned
      `true`) request and classify the response. */
  function Execute<J>(inp: Inputs, time: TimeReading, resp: Response, parse: string -> Option<J>): (r: Run<J>)
    ensures !Truthy(inp.apiKey) ==> r == Halted(Some(InvalidAPIKey))
    ensures Truthy(inp.apiKey) && !LatLong.MatchesLatLong(inp.lat + ", " + inp.lng)
            ==> r == Halted(Some(InvalidLatOrLong))
    ensures r.Requested?
            <==> Truthy(inp.apiKey) && LatLong.MatchesLatLong(inp.lat + ", " + inp.lng)
                 && inp.options.None?
    ensures r.Requested? ==>
              && r.url == Endpoint + inp.apiKey.value + "/" + inp.lat + "," + inp.lng + "," + time.epoch
              && r.exit == Classify(resp, false, parse)
  {
    var v := Validate(inp, time.valid);
    if v != Passed then Stopped(v)
    else
      // `inputs.options ? stringifyOptions() : ''`: validation passed, so the
      // options are absent and `stringifyOptions` is not called
      Requested(Url(inp.apiKey, inp.lat, inp.lng, time.epoch, ""),
                Classify(resp, CallbackSet(inp.options), parse))
  }

  /** With options present no request is ever issued: the run ends in a
      rejecting exit, in `error` from a throw, or in no exit at all. */
  lemma OptionsNeverRequest<J>(inp: Inputs, time: TimeReading, resp: Response, parse: string -> Option<J>)
    requires inp.options.Some?
    ensures var r := Execute(inp, time, resp, parse);
      && r.Halted?
      && (r.called.None? || r.called.value in
            {InvalidAPIKey, InvalidLatOrLong, InvalidOptions, Error(Unexpected)})
  {
  }

  /** Inputs that pass every check, options included, end with no exit called. */
  lemma OptionsPassingFallThrough<J>(inp: Inputs, time: TimeReading, resp: Response, parse: string -> Option<J>)
    requires Truthy(inp.apiKey) && LatLong.MatchesLatLong(inp.lat + ", " + inp.lng)
    requires inp.options.Some? && UnitsAccepted(inp.options.value.units)
    requires inp.options.value.exclude.Some? && !ExcludeRejected(inp.options.value.exclude.value)
    requires LangAccepted(inp.options.value.lang) && time.valid
    ensures Execute(inp, time, resp, parse) == Halted(None)
  {
  }

  /** Each option check on its own turns the inputs down with `invalidOptions`
      (or, for an absent exclude list, with `error`), once key and coordinates pass. */
  lemma OptionChecks<J>(inp: Inputs, time: TimeReading, resp: Response, parse: string -> Option<J>)
    requires Truthy(inp.apiKey) && LatLong.MatchesLatLong(inp.lat + ", " + inp.lng)
    requires inp.options.Some?
    ensures var o, r := inp.options.value, Execute(inp, time, resp, parse);
      && (!UnitsAccepted(o.units) ==> r == Halted(Some(InvalidOptions)))
      && (UnitsAccepted(o.units) && o.exclude.None? ==> r == Halted(Some(Error(Unexpected))))
      && (UnitsAccepted(o.units) && o.exclude.Some?
          && (exists k :: 0 <= k < |o.exclude.value| && o.exclude.value[k] !in ValidExcludes)
          ==> r == Halted(Some(InvalidOptions)))
      && ((UnitsAccepted(o.units) && o.exclude.Some? && !ExcludeRejected(o.exclude.value)
           && !LangAccepted(o.lang)) ==> r == Halted(Some(InvalidOptions)))
      && ((UnitsAccepted(o.units) && o.exclude.Some? && !ExcludeRejected(o.exclude.value)
           && LangAccepted(o.lang) && !time.valid) ==> r == Halted(Some(InvalidOptions)))
  {
  }

  /** The machine's own documented inputs, with a valid time, make it stop
      silently: no request and no exit. */
  lemma DocumentedInputsFallThrough<J>(time: TimeReading, resp: Response, parse: string -> Option<J>)
    requires time.valid
    ensures Execute(Inputs("42.3507282", "-71.13212709999999",
                           Some("ab1d526c3c074c2a48c25476c19a9d0a"), Some(ExampleOptions)),
                    time, resp, parse) == Halted(None)
  {
    LatLong.DocumentedCoordinates();
    var o := ExampleOptions;
    assert UnitsAccepted(o.units);
    assert !ExcludeRejected(o.exclude.value) by {
      assert o.exclude.value == ValidExcludes;
    }
    assert LangAccepted(o.lang);
  }
}
