/** The get-current-forecast machine: the current forecast for a latitude
    and a longitude. Its validator reads `options` without checking that they
    were given, has no language check, and returns `true` once every check
    passes; its URL always carries a `?`, and its query has no `?` of its own. */
module GetCurrentForecast {

  import opened JsValues
  import opened ForecastApi
  import LatLong
  import GetForecast

  /** `validateInputs`: key, coordinates, units, exclude, in that order. */
  function Validate(inp: Inputs): (v: Verdict)
    ensures v == Rejected(MissingKey) <==> !Truthy(inp.apiKey)
    ensures v == Rejected(BadLatLong)
            <==> Truthy(inp.apiKey) && !LatLong.MatchesLatLong(inp.lat + ", " + inp.lng)
    ensures v == Passed
            <==> && Truthy(inp.apiKey) && LatLong.MatchesLatLong(inp.lat + ", " + inp.lng)
                 && inp.options.Some? && UnitsAccepted(inp.options.value.units)
                 && inp.options.value.exclude.Some?
                 && !ExcludeRejected(inp.options.value.exclude.value)
    ensures v == Threw
            <==> && Truthy(inp.apiKey) && LatLong.MatchesLatLong(inp.lat + ", " + inp.lng)
                 && (inp.options.None?
                     || (UnitsAccepted(inp.options.value.units) && inp.options.value.exclude.None?))
    ensures v == Rejected(BadOptions)
            <==> && Truthy(inp.apiKey) && LatLong.MatchesLatLong(inp.lat + ", " + inp.lng)
                 && inp.options.Some?
                 && (|| !UnitsAccepted(inp.options.value.units)
                     || (inp.options.value.exclude.Some? && ExcludeRejected(inp.options.value.exclude.value)))
    ensures v != NoVerdict
  {
    if !Truthy(inp.apiKey) then Rejected(MissingKey)
    else if !LatLong.MatchesLatLong(inp.lat + ", " + inp.lng) then Rejected(BadLatLong)
    // `inputs.options.units` throws when the options are absent
    else if inp.options.None? then Threw
    else if !UnitsAccepted(inp.options.value.units) then Rejected(BadOptions)
    else if inp.options.value.exclude.None? then Threw
    else if ExcludeRejected(inp.options.value.exclude.value) then Rejected(BadOptions)
    else Passed
  }

  /** What `stringifyOptions` returns: the pushed parameters joined by
      commas, with no `?`; `None` when it throws (options or exclude absent). */
  function Stringified(options: Option<Options>): (q: Option<string>)
    ensures q.Some? <==> options.Some? && options.value.exclude.Some?
  {
    match options
    case None => None
    case Some(o) =>
      match QueryParams(o)
      case None => None
      case Some(ps) => Some(Join(ps, ','))
  }

  /** `stringifyOptions`, pushing one parameter at a time. */
  method StringifyOptions(options: Option<Options>) returns (q: Option<string>)
    ensures q == Stringified(options)
  {
    if options.None? {
      // reading `options.callback` throws; the `catch` calls the error exit
      return None;
    }
    var o := options.value;
    var queryStrings: seq<string> := [];
    if Truthy(o.callback) {
      queryStrings := queryStrings + ["callback=" + o.callback.value];
    }
    if Truthy(o.units) {
      queryStrings := queryStrings + ["units=" + o.units.value];
    }
    if o.exclude.None? {
      // reading `exclude.length` throws; the `catch` calls the error exit
      return None;
    }
    if |o.exclude.value| != 0 {
      queryStrings := queryStrings + ["exclude=" + Join(o.exclude.value, ',')];
    }
    if Truthy(o.lang) {
      queryStrings := queryStrings + ["lang=" + o.lang.value];
    }
    assert queryStrings == QueryParams(o).value;
    return Some(Join(queryStrings, ','));
  }

  /** The request URL: key, coordinates, `?`, then the query. */
  function Url(apiKey: Option<string>, lat: string, lng: string, query: string): (u: string)
    ensures |u| >= |Endpoint| && u[..|Endpoint|] == Endpoint
    ensures '?' in u
  {
    Endpoint + Render(apiKey) + "/" + lat + "," + lng + "?" + query
  }

  /** When key and coordinates hold no `?`, the URL after its first `?` is
      exactly the query, so an empty query still leaves the `?` in place. */
  lemma UrlQuery(apiKey: Option<string>, lat: string, lng: string, query: string)
    requires '?' !in Render(apiKey) && '?' !in lat && '?' !in lng
    ensures var u := Url(apiKey, lat, lng, query);
      && JsValues.IndexOf(u, '?') < |u|
      && u[JsValues.IndexOf(u, '?') + 1..] == query
  {
    var pre := Endpoint + Render(apiKey) + "/" + lat + "," + lng;
    var u := Url(apiKey, lat, lng, query);
    assert u == pre + ("?" + query);
    EndpointUnmarked();
    IndexOfAfter(pre, "?" + query, '?');
    assert JsValues.IndexOf("?" + query, '?') == 0;
    assert u[|pre| + 1..] == query;
  }

  /** The machine's `fn`: validate, then (only when validation returned
      `true`) request and classify the response. */
  function Execute<J>(inp: Inputs, resp: Response, parse: string -> Option<J>): (r: Run<J>)
    ensures !Truthy(inp.apiKey) ==> r == Halted(Some(InvalidAPIKey))
    ensures Truthy(inp.apiKey) && !LatLong.MatchesLatLong(inp.lat + ", " + inp.lng)
            ==> r == Halted(Some(InvalidLatOrLong))
    ensures r.Requested? <==> Validate(inp) == Passed
    ensures r.Halted? ==> r == Stopped(Validate(inp)) && r.called.Some?
    ensures r.Requested? ==>
              && r.url == Endpoint + inp.apiKey.value + "/" + inp.lat + "," + inp.lng + "?"
                          + Join(QueryParams(inp.options.value).value, ',')
              && r.exit == Classify(resp, Truthy(inp.options.value.callback), parse)
  {
    var v := Validate(inp);
    if v != Passed then Stopped(v)
    else
      // `inputs.options ? stringifyOptions() : ''`; here the options are present
      var query := Stringified(inp.options).value;
      Requested(Url(inp.apiKey, inp.lat, inp.lng, query),
                Classify(resp, Truthy(inp.options.value.callback), parse))
  }

  /** With a good key and coordinates, refused units or a refused exclude
      element end in `invalidOptions`, and options or an exclude list that
      are absent end in `error`. */
  lemma OptionChecks<J>(inp: Inputs, resp: Response, parse: string -> Option<J>)
    requires Truthy(inp.apiKey) && LatLong.MatchesLatLong(inp.lat + ", " + inp.lng)
    ensures var r := Execute(inp, resp, parse);
      && (inp.options.None? ==> r == Halted(Some(Error(Unexpected))))
      && (inp.options.Some? && !UnitsAccepted(inp.options.value.units)
          ==> r == Halted(Some(InvalidOptions)))
      && (inp.options.Some? && UnitsAccepted(inp.options.value.units) && inp.options.value.exclude.None?
          ==> r == Halted(Some(Error(Unexpected))))
      && (inp.options.Some? && UnitsAccepted(inp.options.value.units) && inp.options.value.exclude.Some?
          && (exists k :: 0 <= k < |inp.options.value.exclude.value|
                          && inp.options.value.exclude.value[k] !in ValidExcludes)
          ==> r == Halted(Some(InvalidOptions)))
  {
  }

  /** A missing key is reported even when the options are absent too. */
  lemma KeyBeforeOptions<J>(inp: Inputs, resp: Response, parse: string -> Option<J>)
    requires !Truthy(inp.apiKey) && inp.options.None?
    ensures Execute(inp, resp, parse) == Halted(Some(InvalidAPIKey))
  {
  }

  /** Valid key and coordinates without options: the unguarded read of
      `options.units` throws, and the outer `catch` ends in `error`. */
  lemma AbsentOptionsError<J>(inp: Inputs, resp: Response, parse: string -> Option<J>)
    requires Truthy(inp.apiKey) && LatLong.MatchesLatLong(inp.lat + ", " + inp.lng)
    requires inp.options.None?
    ensures Execute(inp, resp, parse) == Halted(Some(Error(Unexpected)))
  {
  }

  /** `lang` is never checked: changing it does not change the verdict, and
      a truthy `lang` is sent as given. */
  lemma LangUnchecked(inp: Inputs, lang: Option<string>)
    requires inp.options.Some?
    ensures Validate(inp.(options := Some(inp.options.value.(lang := lang)))) == Validate(inp)
    ensures inp.options.value.exclude.Some? && Truthy(lang) ==>
              Lookup(QueryParams(inp.options.value.(lang := lang)).value, "lang") == lang
  {
    if inp.options.value.exclude.Some? {
      QueryParamsRead(inp.options.value.(lang := lang));
    }
  }

  /** The URL keeps its `?` even when no parameter is emitted. */
  lemma EmptyQueryKeepsMark<J>(inp: Inputs, resp: Response, parse: string -> Option<J>)
    requires Validate(inp) == Passed
    requires !Truthy(inp.options.value.callback) && !Truthy(inp.options.value.units)
    requires inp.options.value.exclude == Some([]) && !Truthy(inp.options.value.lang)
    ensures Execute(inp, resp, parse).url
            == Endpoint + inp.apiKey.value + "/" + inp.lat + "," + inp.lng + "?"
  {
    assert QueryParams(inp.options.value).value == [];
  }

  /** The two machines build the same query from the same options; only
      get-forecast puts the `?` in front. */
  lemma QueryAgreesWithGetForecast(o: Options)
    requires o.exclude.Some?
    ensures GetForecast.Stringified(Some(o)) == Some("?" + Stringified(Some(o)).value)
  {
  }

  const ExampleInputs: Inputs :=
    Inputs("42.3507282", "-71.13212709999999", Some("ab1d526c3c074c2a48c25476c19a9d0a"),
           Some(ExampleOptions))

  lemma ExamplePasses()
    ensures Validate(ExampleInputs) == Passed
  {
    LatLong.DocumentedCoordinates();
    var o := ExampleOptions;
    assert UnitsAccepted(o.units);
    assert !ExcludeRejected(o.exclude.value) by {
      assert o.exclude.value == ValidExcludes;
    }
  }

  /** The query for the documented options: callback, units, the six
      blocks joined by commas, language, joined by commas in that order. */
  lemma ExampleQuery()
    ensures Stringified(Some(ExampleOptions))
            == Some(Join(["callback=logResult", "units=si", "exclude=" + Join(ValidExcludes, ','), "lang=es"], ','))
  {
    assert "callback=" + "logResult" == "callback=logResult";
    assert "units=" + "si" == "units=si";
    assert "lang=" + "es" == "lang=es";
    var o := ExampleOptions;
    assert o.exclude.value == ValidExcludes;
    assert QueryParams(o).value
           == ["callback=logResult", "units=si", "exclude=" + Join(ValidExcludes, ','), "lang=es"];
  }

  /** The machine's own documented inputs produce one request, carrying the
      documented options as its query, whose response is passed on unparsed
      because a callback is set. */
  lemma DocumentedRequest<J>(resp: Response, parse: string -> Option<J>)
    ensures Execute(ExampleInputs, resp, parse)
            == Requested(
                 Url(Some("ab1d526c3c074c2a48c25476c19a9d0a"), "42.3507282", "-71.13212709999999",
                     Join(["callback=logResult", "units=si", "exclude=" + Join(ValidExcludes, ','), "lang=es"], ',')),
                 Classify(resp, true, parse))
  {
    ExamplePasses();
    ExampleQuery();
  }
}
