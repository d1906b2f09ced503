/** What the two option-taking machines share: the `options` input, the
    fixed value lists they validate against, the exits they end in, the
    classification of the forecast.io response, and the list of query
    parameters `stringifyOptions` pushes. */
module ForecastApi {

  import opened JsValues

  const Endpoint: string := "https://api.forecast.io/forecast/"

  /** The endpoint holds no `?`, so the first `?` of a URL comes after it. */
  lemma EndpointUnmarked()
    ensures '?' !in Endpoint
  {
  }

  const ValidUnits: seq<string> := ["us", "si", "ca", "uk", "auto"]

  const ValidExcludes: seq<string> :=
    ["currently", "minutely", "hourly", "daily", "alerts", "flags"]

  const ValidLanguages: seq<string> :=
    ["ar", "bs", "de", "en", "es", "fr", "it", "nl", "pl", "pt", "ru", "sv", "tet", "tr",
     "x-pig-latin", "zh"]

  /** The `options` input; every field may be left `undefined`. */
  datatype Options = Options(
    callback: Option<string>,
    units: Option<string>,
    exclude: Option<seq<string>>,
    extend: Option<string>,
    lang: Option<string>)

  /** The `options` example both machines declare for their inputs. */
  const ExampleOptions: Options := Options(
    Some("logResult"), Some("si"),
    Some(["currently", "minutely", "hourly", "daily", "alerts", "flags"]),
    Some("hourly"), Some("es"))

  /** Inputs both machines take. */
  datatype Inputs = Inputs(lat: string, lng: string, apiKey: Option<string>, options: Option<Options>)

  /** What the success exit carries: the body as text when a JSONP callback
      was asked for, the parsed JSON otherwise. */
  datatype Payload<J> = Raw(body: string) | Parsed(json: J)

  /** Causes behind the `error` exit (the message text is not modelled). */
  datatype Failure =
    | ParseFailure          // the 200 body is not JSON
    | BadRequest            // status 400
    | HttpStatus(code: int) // any other status
    | Unexpected            // an exception caught by the machine's outer `try`

  /** The exits of a machine. */
  datatype Exit<J> =
    | Success(payload: Payload<J>)
    | InvalidAPIKey
    | InvalidLatOrLong
    | InvalidOptions
    | Error(failure: Failure)

  /** What came back for the one request: whether the transport reported an
      error, the status code and the body. */
  datatype Response = Response(transportError: bool, status: int, body: string)

  /** One run of a machine: either it stops before any request, calling one
      exit or none at all, or it issues exactly one GET and ends in the exit
      the response leads to. */
  datatype Run<J> = Halted(called: Option<Exit<J>>) | Requested(url: string, exit: Exit<J>)

  /** Why validation turned the inputs down. */
  datatype Rejection = MissingKey | BadLatLong | BadOptions

  /** The outcome of `validateInputs`: it returned `true`, it called a
      rejecting exit, it fell off its end (returning `undefined` without an
      exit), or it threw. */
  datatype Verdict = Passed | Rejected(reason: Rejection) | NoVerdict | Threw

  function RejectionExit<J>(r: Rejection): (e: Exit<J>)
    ensures r == MissingKey <==> e == InvalidAPIKey
    ensures r == BadLatLong <==> e == InvalidLatOrLong
    ensures r == BadOptions <==> e == InvalidOptions
  {
    match r
    case MissingKey => InvalidAPIKey
    case BadLatLong => InvalidLatOrLong
    case BadOptions => InvalidOptions
  }

  /** What a run ends in when validation did not pass: a rejection calls its
      exit, a throw reaches the outer `catch` and the `error` exit, and a
      fall-through calls nothing. */
  function Stopped<J>(v: Verdict): (r: Run<J>)
    requires !v.Passed?
    ensures r.Halted?
    ensures v.Rejected? ==> r.called == Some(RejectionExit(v.reason))
    ensures v.Threw? <==> r.called == Some(Error(Unexpected))
    ensures v.NoVerdict? <==> r.called.None?
  {
    match v
    case Rejected(reason) => Halted(Some(RejectionExit(reason)))
    case Threw => Halted(Some(Error(Unexpected)))
    case NoVerdict => Halted(None)
  }

  /** The units check: `""` or one of the five unit systems. */
  predicate UnitsAccepted(units: Option<string>) {
    !(units != Some("") && !(units.Some? && units.value in ValidUnits))
  }

  /** The exclude check rejects a non-empty list with something outside the
      six categories. */
  predicate ExcludeRejected(exclude: seq<string>)
    ensures ExcludeRejected(exclude) <==> exists k :: 0 <= k < |exclude| && exclude[k] !in ValidExcludes
  {
    DifferenceEmpty(exclude, ValidExcludes);
    |exclude| != 0 && |Difference(exclude, ValidExcludes)| != 0
  }

  /** The language check: one of the sixteen codes, `""` and absent included in the refusal. */
  predicate LangAccepted(lang: Option<string>) {
    lang.Some? && lang.value in ValidLanguages
  }

  /** The language check refuses `""` and an absent `lang` alike. */
  lemma LangAcceptedIff(lang: Option<string>)
    ensures LangAccepted(lang) <==> lang.Some? && lang.value in ValidLanguages
    ensures !LangAccepted(None) && !LangAccepted(Some(""))
    ensures LangAccepted(Some("es")) && LangAccepted(Some("x-pig-latin"))
  {
  }

  lemma UnitsAcceptedIff(units: Option<string>)
    ensures UnitsAccepted(units) <==> units == Some("") || (units.Some? && units.value in ValidUnits)
    ensures !UnitsAccepted(None)
  {
  }

  /** `inputs.options && inputs.options.callback`: the caller asked for a JSONP callback. */
  predicate CallbackSet(options: Option<Options>) {
    options.Some? && Truthy(options.value.callback)
  }

  /** The request callback: a 200 without transport error succeeds, with the
      raw body when a callback was asked for and the parsed body otherwise;
      anything else is an API-key problem (403) or an error. */
  function Classify<J>(resp: Response, callbackSet: bool, parse: string -> Option<J>): (e: Exit<J>)
    ensures e.Success? <==> !resp.transportError && resp.status == 200 && (callbackSet || parse(resp.body).Some?)
    ensures e.Success? && callbackSet ==> e.payload == Raw(resp.body)
    ensures e.Success? && !callbackSet ==> e.payload.Parsed? && Some(e.payload.json) == parse(resp.body)
    ensures e == InvalidAPIKey <==> resp.status == 403
    ensures e == Error(BadRequest) <==> resp.status == 400
    ensures e == Error(ParseFailure) <==> !resp.transportError && resp.status == 200 && !callbackSet && parse(resp.body).None?
    ensures e.Error? && e.failure.HttpStatus? <==> (resp.transportError || resp.status != 200) && resp.status != 403 && resp.status != 400
    ensures e.Error? && e.failure.HttpStatus? ==> e.failure.code == resp.status
    ensures !e.InvalidLatOrLong? && !e.InvalidOptions? && e != Error(Unexpected)
  {
    if !resp.transportError && resp.status == 200 then
      if callbackSet then Success(Raw(resp.body))
      else match parse(resp.body)
        case Some(json) => Success(Parsed(json))
        case None => Error(ParseFailure)
    else if resp.status == 403 then InvalidAPIKey
    else if resp.status == 400 then Error(BadRequest)
    else Error(HttpStatus(resp.status))
  }

  /** The parameters `stringifyOptions` pushes, in push order; `None` when
      reading `exclude.length` throws because `exclude` is absent. */
  function QueryParams(o: Options): (r: Option<seq<string>>)
    ensures r.None? <==> o.exclude.None?
  {
    if o.exclude.None? then None
    else Some(
      (if Truthy(o.callback) then ["callback=" + o.callback.value] else [])
      + (if Truthy(o.units) then ["units=" + o.units.value] else [])
      + (if |o.exclude.value| != 0 then ["exclude=" + Join(o.exclude.value, ',')] else [])
      + (if Truthy(o.lang) then ["lang=" + o.lang.value] else []))
  }

  // ---------------------------------------------------------------------
  // Reading the parameter list back

  /** The parameter names `stringifyOptions` knows, in push order. */
  const QueryNames: seq<string> := ["callback", "units", "exclude", "lang"]

  /** `p` is the parameter `key=<value>`. */
  predicate HasKey(p: string, key: string) {
    |p| > |key| && p[..|key| + 1] == key + "="
  }

  /** The value of the first parameter named `key`, as a receiver reads the list. */
  function Lookup(ps: seq<string>, key: string): (v: Option<string>) {
    if ps == [] then None
    else if HasKey(ps[0], key) then Some(ps[0][|key| + 1..])
    else Lookup(ps[1..], key)
  }

  /** Position of a parameter's name in `QueryNames`; 4 for any other name. */
  function Rank(p: string): (r: nat) {
    if HasKey(p, "callback") then 0
    else if HasKey(p, "units") then 1
    else if HasKey(p, "exclude") then 2
    else if HasKey(p, "lang") then 3
    else 4
  }

  /** Every parameter of `ps` comes strictly after the ones before it in `QueryNames`. */
  predicate InQueryOrder(ps: seq<string>) {
    RanksWithin(ps, 0, 4) && Increasing(ps)
  }

  /** Every parameter of `ps` has a rank in `[lo, hi)`. */
  predicate RanksWithin(ps: seq<string>, lo: nat, hi: nat) {
    forall k :: 0 <= k < |ps| ==> lo <= Rank(ps[k]) < hi
  }

  /** Ranks strictly increase along `ps`. */
  predicate Increasing(ps: seq<string>) {
    forall i, j :: 0 <= i < j < |ps| ==> Rank(ps[i]) < Rank(ps[j])
  }

  lemma NotKey(p: string, key: string, m: nat)
    requires m < |key| && m < |p| && p[m] != key[m]
    ensures !HasKey(p, key)
  {
  }

  /** Parameter names tell each other apart: `name=v` has key `key` only when the names agree. */
  lemma KeyOfParam(name: string, key: string, v: string)
    requires name in QueryNames + ["extend"] && key in QueryNames + ["extend"]
    ensures HasKey(name + "=" + v, key) <==> key == name
    ensures HasKey(name + "=" + v, name) && (name + "=" + v)[|name| + 1..] == v
  {
    var p := name + "=" + v;
    assert p[..|name| + 1] == name + "=";
    if key != name {
      var m := if key[0] != name[0] then 0 else 2;
      assert p[m] == name[m];
      NotKey(p, key, m);
    }
  }

  lemma {:induction false} LookupAppend(a: seq<string>, b: seq<string>, key: string)
    ensures Lookup(a + b, key) == if Lookup(a, key).Some? then Lookup(a, key) else Lookup(b, key)
  {
    if a != [] {
      assert (a + b)[0] == a[0];
      assert (a + b)[1..] == a[1..] + b;
      LookupAppend(a[1..], b, key);
    } else {
      assert a + b == b;
    }
  }

  lemma LookupOne(name: string, key: string, v: string)
    requires name in QueryNames + ["extend"] && key in QueryNames + ["extend"]
    ensures Lookup([name + "=" + v], key) == if key == name then Some(v) else None
  {
    KeyOfParam(name, key, v);
    assert [name + "=" + v][1..] == [];
  }

  /** The parameter `key` pushed when `present`, with value `v`. */
  function Param(present: bool, key: string, v: string): (ps: seq<string>) {
    if present then [key + "=" + v] else []
  }

  lemma LookupParam(present: bool, name: string, key: string, v: string)
    requires name in QueryNames + ["extend"] && key in QueryNames + ["extend"]
    ensures Lookup(Param(present, name, v), key) == if present && key == name then Some(v) else None
  {
    if present { LookupOne(name, key, v); }
  }

  /** The pushed parameters, one segment per field. */
  lemma QueryParamsSegments(o: Options)
    requires o.exclude.Some?
    ensures QueryParams(o).value ==
      Param(Truthy(o.callback), "callback", Render(o.callback))
      + Param(Truthy(o.units), "units", Render(o.units))
      + Param(|o.exclude.value| != 0, "exclude", Join(o.exclude.value, ','))
      + Param(Truthy(o.lang), "lang", Render(o.lang))
  {
    assert "callback" + "=" == "callback=";
    assert "units" + "=" == "units=";
    assert "exclude" + "=" == "exclude=";
    assert "lang" + "=" == "lang=";
    assert (if Truthy(o.callback) then ["callback=" + o.callback.value] else [])
      == Param(Truthy(o.callback), "callback", Render(o.callback));
    assert (if Truthy(o.units) then ["units=" + o.units.value] else [])
      == Param(Truthy(o.units), "units", Render(o.units));
    assert (if Truthy(o.lang) then ["lang=" + o.lang.value] else [])
      == Param(Truthy(o.lang), "lang", Render(o.lang));
  }

  lemma LookupFields(o: Options, key: string)
    requires o.exclude.Some? && key in QueryNames + ["extend"]
    ensures Lookup(QueryParams(o).value, key) ==
      if key == "callback" && Truthy(o.callback) then o.callback
      else if key == "units" && Truthy(o.units) then o.units
      else if key == "exclude" && |o.exclude.value| != 0 then Some(Join(o.exclude.value, ','))
      else if key == "lang" && Truthy(o.lang) then o.lang
      else None
  {
    var a := Param(Truthy(o.callback), "callback", Render(o.callback));
    var b := Param(Truthy(o.units), "units", Render(o.units));
    var c := Param(|o.exclude.value| != 0, "exclude", Join(o.exclude.value, ','));
    var d := Param(Truthy(o.lang), "lang", Render(o.lang));
    QueryParamsSegments(o);
    LookupAppend(a + b + c, d, key);
    LookupAppend(a + b, c, key);
    LookupAppend(a, b, key);
    LookupParam(Truthy(o.callback), "callback", key, Render(o.callback));
    LookupParam(Truthy(o.units), "units", key, Render(o.units));
    LookupParam(|o.exclude.value| != 0, "exclude", key, Join(o.exclude.value, ','));
    LookupParam(Truthy(o.lang), "lang", key, Render(o.lang));
  }

  /** Reading the pushed parameters back by name gives exactly the truthy
      fields, the exclude list joined by commas, and never `extend`. */
  lemma QueryParamsRead(o: Options)
    requires o.exclude.Some?
    ensures var ps := QueryParams(o).value;
      && Lookup(ps, "callback") == (if Truthy(o.callback) then o.callback else None)
      && Lookup(ps, "units") == (if Truthy(o.units) then o.units else None)
      && Lookup(ps, "exclude") == (if |o.exclude.value| != 0 then Some(Join(o.exclude.value, ',')) else None)
      && Lookup(ps, "lang") == (if Truthy(o.lang) then o.lang else None)
      && Lookup(ps, "extend") == None
  {
    LookupFields(o, "callback");
    LookupFields(o, "units");
    LookupFields(o, "exclude");
    LookupFields(o, "lang");
    LookupFields(o, "extend");
  }

  lemma IncreasingAppend(xs: seq<string>, ys: seq<string>, lo: nat, mid: nat, hi: nat)
    requires lo <= mid <= hi
    requires Increasing(xs) && Increasing(ys)
    requires RanksWithin(xs, lo, mid) && RanksWithin(ys, mid, hi)
    ensures Increasing(xs + ys) && RanksWithin(xs + ys, lo, hi)
  {
    var zs := xs + ys;
    forall i, j | 0 <= i < j < |zs| ensures Rank(zs[i]) < Rank(zs[j]) {
      if j < |xs| {
        assert zs[i] == xs[i] && zs[j] == xs[j];
      } else if i < |xs| {
        assert zs[i] == xs[i] && zs[j] == ys[j - |xs|];
      } else {
        assert zs[i] == ys[i - |xs|] && zs[j] == ys[j - |xs|];
      }
    }
    forall k | 0 <= k < |zs| ensures lo <= Rank(zs[k]) < hi {
      if k < |xs| { assert zs[k] == xs[k]; } else { assert zs[k] == ys[k - |xs|]; }
    }
  }

  lemma RankOfParam(present: bool, name: string, v: string, r: nat)
    requires r < 4 && name == QueryNames[r]
    ensures RanksWithin(Param(present, name, v), r, r + 1)
    ensures Increasing(Param(present, name, v)) && |Param(present, name, v)| <= 1
  {
    if present {
      KeyOfParam(name, "callback", v);
      KeyOfParam(name, "units", v);
      KeyOfParam(name, "exclude", v);
      KeyOfParam(name, "lang", v);
    }
  }

  /** Four segments of at most one parameter each, of ranks 0, 1, 2, 3, in that order. */
  lemma OrderedSegments(a: seq<string>, b: seq<string>, c: seq<string>, d: seq<string>)
    requires RanksWithin(a, 0, 1) && RanksWithin(b, 1, 2) && RanksWithin(c, 2, 3) && RanksWithin(d, 3, 4)
    requires Increasing(a) && Increasing(b) && Increasing(c) && Increasing(d)
    requires |a| <= 1 && |b| <= 1 && |c| <= 1 && |d| <= 1
    ensures InQueryOrder(a + b + c + d) && |a + b + c + d| <= 4
  {
    IncreasingAppend(a, b, 0, 1, 2);
    IncreasingAppend(a + b, c, 0, 2, 3);
    IncreasingAppend(a + b + c, d, 0, 3, 4);
  }

  /** The four segments of `QueryParams`, each with the rank of its name. */
  lemma SegmentRanks(o: Options)
    requires o.exclude.Some?
    ensures var a, b, c, d := Param(Truthy(o.callback), "callback", Render(o.callback)),
                              Param(Truthy(o.units), "units", Render(o.units)),
                              Param(|o.exclude.value| != 0, "exclude", Join(o.exclude.value, ',')),
                              Param(Truthy(o.lang), "lang", Render(o.lang));
      && RanksWithin(a, 0, 1) && RanksWithin(b, 1, 2) && RanksWithin(c, 2, 3) && RanksWithin(d, 3, 4)
      && Increasing(a) && Increasing(b) && Increasing(c) && Increasing(d)
      && |a| <= 1 && |b| <= 1 && |c| <= 1 && |d| <= 1
  {
    RankOfParam(Truthy(o.callback), "callback", Render(o.callback), 0);
    RankOfParam(Truthy(o.units), "units", Render(o.units), 1);
    RankOfParam(|o.exclude.value| != 0, "exclude", Join(o.exclude.value, ','), 2);
    RankOfParam(Truthy(o.lang), "lang", Render(o.lang), 3);
  }

  /** The parameters always come in the order callback, units, exclude, lang. */
  lemma QueryParamsOrdered(o: Options)
    requires o.exclude.Some?
    ensures InQueryOrder(QueryParams(o).value)
    ensures |QueryParams(o).value| <= 4
  {
    var a := Param(Truthy(o.callback), "callback", Render(o.callback));
    var b := Param(Truthy(o.units), "units", Render(o.units));
    var c := Param(|o.exclude.value| != 0, "exclude", Join(o.exclude.value, ','));
    var d := Param(Truthy(o.lang), "lang", Render(o.lang));
    QueryParamsSegments(o);
    SegmentRanks(o);
    OrderedSegments(a, b, c, d);
  }

  /** None of the six categories contains a comma. */
  lemma ValidExcludesCommaFree()
    ensures forall e :: e in ValidExcludes ==> ',' !in e
  {
  }

  /** A validated exclude list survives the comma join: splitting the
      `exclude` parameter's value on commas gives the list back. */
  lemma ExcludeRoundTrip(o: Options)
    requires o.exclude.Some? && |o.exclude.value| != 0 && !ExcludeRejected(o.exclude.value)
    ensures Lookup(QueryParams(o).value, "exclude").Some?
    ensures JsValues.Split(Lookup(QueryParams(o).value, "exclude").value, ',') == o.exclude.value
  {
    QueryParamsRead(o);
    ValidExcludesCommaFree();
    SplitJoin(o.exclude.value, ',');
  }
}
