/** The placeholder ASCOM Alpaca telescope server: the route paths it
    registers, the standard response envelope with its transaction
    identifiers, the single `connected` cell of the telescope state, and
    the getters that answer with constant placeholder values. HTTP
    transport is not modelled: a handler takes the request's query and
    form fields as maps and returns the record it would serialise. */
module Alpaca {
  import opened PyBuiltins

  // ---------------------------------------------------------------------
  // Route paths

  /** The path every telescope endpoint starts with; Bottle reads
      `<device_number:int>` as an integer wildcard. */
  const DeviceRoutePrefix: string := "/api/v1/telescope/<device_number:int>/"

  /** `get_url(suffix)`: the route path of one telescope endpoint. */
  function GetUrl(suffix: string): (url: string)
    ensures |url| == |DeviceRoutePrefix| + |suffix|
    ensures url[..|DeviceRoutePrefix|] == DeviceRoutePrefix
    ensures url[|DeviceRoutePrefix|..] == suffix
  {
    DeviceRoutePrefix + suffix
  }

  /** The endpoint suffix of a path built by `GetUrl`, if it is one. */
  function RouteSuffix(path: string): (suffix: Option<string>)
    ensures suffix.Some? <==> DeviceRoutePrefix <= path
  {
    if DeviceRoutePrefix <= path then Some(path[|DeviceRoutePrefix|..]) else None
  }

  /** `RouteSuffix` undoes `GetUrl`, and `GetUrl` rebuilds every path
      `RouteSuffix` accepts. */
  lemma RouteSuffixInvertsGetUrl(suffix: string, path: string)
    ensures RouteSuffix(GetUrl(suffix)) == Some(suffix)
    ensures RouteSuffix(path).Some? ==> GetUrl(RouteSuffix(path).value) == path
  {
    assert GetUrl(suffix)[..|DeviceRoutePrefix|] == DeviceRoutePrefix;
    if RouteSuffix(path).Some? {
      assert path == path[..|DeviceRoutePrefix|] + path[|DeviceRoutePrefix|..];
    }
  }

  /** Distinct suffixes give distinct route paths. */
  lemma GetUrlInjective(a: string, b: string)
    ensures GetUrl(a) == GetUrl(b) <==> a == b
  {
    if GetUrl(a) == GetUrl(b) {
      RouteSuffixInvertsGetUrl(a, "");
      RouteSuffixInvertsGetUrl(b, "");
    }
  }

  datatype HttpMethod = GET | PUT

  datatype Route = Route(verb: HttpMethod, path: string)

  /** The telescope endpoints, as method and `get_url` suffix, in
      declaration order. */
  const DeviceEndpoints: seq<(HttpMethod, string)> := [
    (GET, "interfaceversion"), (GET, "connected"), (PUT, "connected"), (GET, "slewing"),
    (GET, "alignmentmode"), (GET, "declination"), (GET, "gps"), (GET, "siderealtime")]

  /** The routes the server registers, in declaration order. */
  function Routes(): seq<Route> {
    [Route(GET, "/management/apiversions")] +
    seq(|DeviceEndpoints|, i requires 0 <= i < |DeviceEndpoints| =>
      Route(DeviceEndpoints[i].0, GetUrl(DeviceEndpoints[i].1)))
  }

  lemma DeviceEndpointsDistinct()
    ensures forall i, j :: 0 <= i < j < |DeviceEndpoints| ==> DeviceEndpoints[i] != DeviceEndpoints[j]
  {
  }

  /** No two registered routes share both method and path, so no handler
      shadows another; `connected` is registered once for GET and once for
      PUT. */
  lemma RoutesAreDistinct()
    ensures forall i, j :: 0 <= i < j < |Routes()| ==> Routes()[i] != Routes()[j]
    ensures Routes()[2].path == Routes()[3].path
  {
    var routes := Routes();
    DeviceEndpointsDistinct();
    forall i, j | 1 <= i < j < |routes|
      ensures routes[i] != routes[j]
    {
      GetUrlInjective(DeviceEndpoints[i - 1].1, DeviceEndpoints[j - 1].1);
    }
    forall j | 1 <= j < |routes|
      ensures routes[0] != routes[j]
    {
      assert routes[j].path[1] == 'a' != routes[0].path[1];
    }
  }

  /** `api_versions()`: the Alpaca API versions the server supports, which
      is the one version `v1` that the device routes are built on. */
  function ApiVersions(): (versions: seq<int>)
    ensures |versions| == 1
    ensures "/api/v" + IntToDecimal(versions[0]) + "/" <= DeviceRoutePrefix
  {
    [1]
  }

  // ---------------------------------------------------------------------
  // The standard response envelope

  /** `request.query.<name>` in Bottle: the value sent for `name` (the last
      one when it is repeated), or "" when the query string has none. */
  function QueryAttribute(query: map<string, string>, name: string): string {
    if name in query then query[name] else ""
  }

  /** The client transaction id `std_res` echoes: the query value
      converted with `int()` when it is non-empty, 0 otherwise. */
  function ClientTransactionId(query: map<string, string>): (r: Result<int>)
    ensures r.Ok? <==> QueryAttribute(query, "ClientTransactionID") == "" || IntLiteral(Strip(query["ClientTransactionID"]))
    ensures r.Err? ==> r.error.ValueError?
    ensures QueryAttribute(query, "ClientTransactionID") == "" ==> r == Ok(0)
  {
    var raw := QueryAttribute(query, "ClientTransactionID");
    if raw != "" then ParseInt(raw) else Ok(0)
  }

  /** A client transaction id sent as a decimal integer is echoed as that
      integer, with or without whitespace that `int()` skips around it. */
  lemma ClientTransactionIdEchoes(query: map<string, string>, before: string, i: int, after: string)
    requires forall k :: 0 <= k < |before| ==> IntSpace(before[k])
    requires forall k :: 0 <= k < |after| ==> IntSpace(after[k])
    requires "ClientTransactionID" in query
    requires query["ClientTransactionID"] == before + IntToDecimal(i) + after
    ensures ClientTransactionId(query) == Ok(i)
  {
    ParseIntIgnoresSurroundingWhitespace(before, i, after);
  }

  /** Any client transaction id that converts is echoed as the integer
      whose decimal text is the canonical form of the value sent: `007`
      is echoed as 7, `+1_0` as 10 and `-0` as 0. */
  lemma ClientTransactionIdIsCanonical(query: map<string, string>)
    requires QueryAttribute(query, "ClientTransactionID") != ""
    requires ClientTransactionId(query).Ok?
    ensures IntToDecimal(ClientTransactionId(query).value) == Canonical(Strip(query["ClientTransactionID"]))
  {
    ParseIntIsCanonicalValue(query["ClientTransactionID"]);
  }

  /** Leading zeros are not echoed back: `ClientTransactionID=007` reads
      as 7. */
  lemma ClientTransactionIdWithLeadingZeros()
    ensures ClientTransactionId(map["ClientTransactionID" := "007"]) == Ok(7)
  {
    var query := map["ClientTransactionID" := "007"];
    LeadingZerosLiteral();
    ClientTransactionIdIsCanonical(query);
    IntToDecimalInjective(ClientTransactionId(query).value, 7);
  }

  /** An absent or empty client transaction id reads as 0; the lookup is
      case-sensitive, so a lower-case parameter name is not seen at all. */
  lemma ClientTransactionIdDefaultsToZero(query: map<string, string>, v: string)
    requires "ClientTransactionID" !in query || query["ClientTransactionID"] == ""
    ensures ClientTransactionId(query) == Ok(0)
    ensures ClientTransactionId(map["clienttransactionid" := v]) == Ok(0)
  {
  }

  /** A non-empty client transaction id without a single decimal digit is
      not swallowed: the conversion raises ValueError. */
  lemma NonNumericClientTransactionIdRaises(query: map<string, string>)
    requires "ClientTransactionID" in query && query["ClientTransactionID"] != ""
    requires forall k :: 0 <= k < |query["ClientTransactionID"]| ==> !IsDigit(query["ClientTransactionID"][k])
    ensures ClientTransactionId(query).Err?
    ensures ClientTransactionId(query).error.ValueError?
  {
    ParseIntNeedsDigit(query["ClientTransactionID"]);
  }

  /** The dictionary `std_res` returns. `value` is `None` when the
      dictionary has no "Value" key. */
  datatype Envelope = Envelope(
    clientTransactionId: int,
    serverTransactionId: int,
    errorNumber: int,
    errorMessage: string,
    value: Option<Value>)
  {
    /** The keys of the JSON object. */
    function Keys(): set<string> {
      {"ClientTransactionID", "ServerTransactionID", "ErrorNumber", "ErrorMessage"} +
      (if value.Some? then {"Value"} else {})
    }
  }

  /** The status codes Bottle's `response.status` setter accepts; any other
      integer makes it raise ValueError. */
  predicate ValidStatusCode(status: int) {
    100 <= status <= 999
  }

  /** `check(a_request, ctID, status)` without its debugging output. */
  function Check(ctId: int, status: int): (r: int)
    ensures r == status
  {
    status
  }

  /** What `std_res(request, status, value)` returns, or the exception it
      raises: first the conversion of the client transaction id, then the
      status assignment, can fail. */
  function StdResult(query: map<string, string>, status: int := 200, value: Value := NoneValue): (r: Result<Envelope>)
    ensures ClientTransactionId(query).Err? ==> r == Err(ClientTransactionId(query).error)
    ensures r.Err? ==> r.error.ValueError?
    ensures ClientTransactionId(query).Ok? ==> (r.Ok? <==> ValidStatusCode(status))
    ensures r.Ok? ==> r.value.clientTransactionId == ClientTransactionId(query).value
    ensures r.Ok? ==> r.value.serverTransactionId == 0 && r.value.errorNumber == 0 && r.value.errorMessage == ""
    ensures r.Ok? ==> ("Value" in r.value.Keys() <==> Truthy(value))
    ensures r.Ok? && r.value.value.Some? ==> r.value.value.value == value
  {
    match ClientTransactionId(query)
    case Err(e) => Err(e)
    case Ok(ctId) =>
      if !ValidStatusCode(status) then Err(ValueError("Status code out of range."))
      else Ok(Envelope(ctId, 0, 0, "", if Truthy(value) then Some(value) else None))
  }

  /** A request whose client transaction id is the decimal text of `i`
      gets `i` back, with server transaction id 0 and no error. */
  lemma StdResultEchoes(query: map<string, string>, i: int, status: int, value: Value)
    requires "ClientTransactionID" in query && query["ClientTransactionID"] == IntToDecimal(i)
    requires ValidStatusCode(status)
    ensures StdResult(query, status, value).Ok?
    ensures StdResult(query, status, value).value.clientTransactionId == i
  {
    assert query["ClientTransactionID"] == "" + IntToDecimal(i) + "";
    ClientTransactionIdEchoes(query, "", i, "");
  }

  /** None, False, 0, 0.0 and "" all leave the "Value" key out. */
  lemma FalsyValuesAreDropped(query: map<string, string>, status: int)
    requires ClientTransactionId(query).Ok? && ValidStatusCode(status)
    ensures forall v :: v in [NoneValue, BoolValue(false), IntValue(0), FloatValue(FloatZero), StrValue("")] ==>
      StdResult(query, status, v).value.value == None
  {
  }

  /** The mutable part of Bottle's `response` object that `std_res` sets. */
  class HttpResponse {
    var status: int

    constructor ()
      ensures status == 200
    {
      status := 200;
    }
  }

  /** `std_res`: builds the envelope and sets the response status, twice,
      to the status argument (`check` hands it back unchanged). When an
      exception is raised the status is left as it was. */
  method StdRes(response: HttpResponse, query: map<string, string>, status: int := 200, value: Value := NoneValue)
    returns (r: Result<Envelope>)
    modifies response
    ensures r == StdResult(query, status, value)
    ensures response.status == if r.Ok? then status else old(response.status)
  {
    var ctId := ClientTransactionId(query);
    if ctId.Err? {
      return Err(ctId.error);
    }
    if !ValidStatusCode(status) {
      return Err(ValueError("Status code out of range."));
    }
    response.status := status;
    response.status := Check(ctId.value, status);
    var result := Envelope(ctId.value, 0, 0, "", None);
    if Truthy(value) {
      result := result.(value := Some(value));
    }
    return Ok(result);
  }

  /** The text `_float(input)` hands to `float()`: every decimal comma
      turned into a point, every other character kept. */
  function FloatText(input: string): (r: string)
    ensures |r| == |input| && ',' !in r
    ensures forall i :: 0 <= i < |input| && input[i] != ',' ==> r[i] == input[i]
    ensures forall i :: 0 <= i < |input| && input[i] == ',' ==> r[i] == '.'
  {
    ReplaceCharRemovesAll(input, ',', '.');
    ReplaceChar(input, ',', '.')
  }

  /** Normalising twice is normalising once. */
  lemma FloatTextIdempotent(input: string)
    ensures FloatText(FloatText(input)) == FloatText(input)
  {
    ReplaceCharRemovesAll(input, ',', '.');
  }

  // ---------------------------------------------------------------------
  // The three-field response of the getters

  /** The dictionary `alpaca_response` returns; unlike the envelope it
      always has a "Value" key, `None` included. */
  datatype AlpacaRecord = AlpacaRecord(value: Value, errorNumber: int, errorMessage: string) {
    /** The keys of the JSON object. */
    function Keys(): set<string> {
      {"Value", "ErrorNumber", "ErrorMessage"}
    }
  }

  /** `alpaca_response(value, error_number, error_message)`. */
  function AlpacaResponse(value: Value := NoneValue, errorNumber: int := 0, errorMessage: string := ""): (r: AlpacaRecord)
    ensures "Value" in r.Keys()
    ensures r.value == value && r.errorNumber == errorNumber && r.errorMessage == errorMessage
  {
    AlpacaRecord(value, errorNumber, errorMessage)
  }

  /** The same falsy value is carried by `alpaca_response` and dropped by
      `std_res`. */
  lemma ValueKeyPresenceDiffers(query: map<string, string>, status: int, v: Value)
    requires ClientTransactionId(query).Ok? && ValidStatusCode(status) && !Truthy(v)
    ensures "Value" in AlpacaResponse(v).Keys()
    ensures "Value" !in StdResult(query, status, v).value.Keys()
  {
  }

  /** `get_slewing`: always "not slewing". */
  function GetSlewing(deviceNumber: int): (r: AlpacaRecord)
    ensures r.value == BoolValue(false) && !Truthy(r.value)
    ensures r.errorNumber == 0 && r.errorMessage == ""
  {
    AlpacaResponse(BoolValue(false))
  }

  /** `get_alignment_mode`: always 0 (alt-azimuth). */
  function GetAlignmentMode(deviceNumber: int): (r: AlpacaRecord)
    ensures r.value == IntValue(0) && !Truthy(r.value)
    ensures r.errorNumber == 0 && r.errorMessage == ""
  {
    AlpacaResponse(IntValue(0))
  }

  /** `get_declination`: always 0.0. */
  function GetDeclination(deviceNumber: int): (r: AlpacaRecord)
    ensures r.value == FloatValue(FloatZero) && !Truthy(r.value)
    ensures r.errorNumber == 0 && r.errorMessage == ""
  {
    AlpacaResponse(FloatValue(FloatZero))
  }

  /** `get_gps`: always False. */
  function GetGps(deviceNumber: int): (r: AlpacaRecord)
    ensures r.value == BoolValue(false) && !Truthy(r.value)
    ensures r.errorNumber == 0 && r.errorMessage == ""
  {
    AlpacaResponse(BoolValue(false))
  }

  /** `get_sidereal_time`: always 0.0. */
  function GetSiderealTime(deviceNumber: int): (r: AlpacaRecord)
    ensures r.value == FloatValue(FloatZero) && !Truthy(r.value)
    ensures r.errorNumber == 0 && r.errorMessage == ""
  {
    AlpacaResponse(FloatValue(FloatZero))
  }

  /** Every placeholder getter reports success with a fixed, falsy value,
      whatever the device number. */
  lemma PlaceholderGettersAreConstant(d: int, e: int)
    ensures forall r :: r in [GetSlewing(d), GetAlignmentMode(d), GetDeclination(d), GetGps(d), GetSiderealTime(d)] ==>
      r.errorNumber == 0 && r.errorMessage == "" && !Truthy(r.value)
    ensures GetSlewing(d) == GetSlewing(e) && GetAlignmentMode(d) == GetAlignmentMode(e)
    ensures GetDeclination(d) == GetDeclination(e) && GetGps(d) == GetGps(e)
    ensures GetSiderealTime(d) == GetSiderealTime(e)
    ensures GetSlewing(d).value == BoolValue(false) && GetAlignmentMode(d).value == IntValue(0)
    ensures GetDeclination(d).value == FloatValue(FloatZero) && GetGps(d).value == BoolValue(false)
    ensures GetSiderealTime(d).value == FloatValue(FloatZero)
  {
  }

  // ---------------------------------------------------------------------
  // The telescope state

  const ConnectedKey: string := "connected"

  /** The form field "Connected" as Bottle hands it over: the raw text
      sent (the last one when repeated), or False when the form has none. */
  function FormConnected(form: map<string, string>): (v: Value)
    ensures "Connected" in form ==> v == StrValue(form["Connected"])
    ensures "Connected" !in form ==> v == BoolValue(false)
    ensures Truthy(v) <==> "Connected" in form && form["Connected"] != ""
  {
    if "Connected" in form then StrValue(form["Connected"]) else BoolValue(false)
  }

  /** The text is stored as sent: a client that asks to disconnect with
      `Connected=False` leaves a non-empty string, which is truthy. */
  lemma DisconnectTextIsTruthy()
    ensures FormConnected(map["Connected" := "False"]) == StrValue("False")
    ensures Truthy(FormConnected(map["Connected" := "False"]))
    ensures !Truthy(FormConnected(map[]))
  {
  }

  /** The global `telescope_state` dictionary. */
  class TelescopeState {
    var state: map<string, Value>

    ghost predicate Valid()
      reads this
    {
      ConnectedKey in state
    }

    /** The dictionary as the module initialises it. */
    constructor ()
      ensures Valid()
      ensures state == map[ConnectedKey := BoolValue(false)]
    {
      state := map[ConnectedKey := BoolValue(false)];
    }

    /** `put_connected`: stores the form value under "connected" before
        `std_res` runs, so the store happens even when `std_res` then
        raises; no other key changes. */
    method PutConnected(deviceNumber: int, form: map<string, string>, query: map<string, string>, response: HttpResponse)
      returns (r: Result<Envelope>)
      requires Valid()
      modifies this, response
      ensures Valid()
      ensures state == old(state)[ConnectedKey := FormConnected(form)]
      ensures r == StdResult(query)
      ensures response.status == if r.Ok? then 200 else old(response.status)
    {
      state := state[ConnectedKey := FormConnected(form)];
      r := StdRes(response, query);
    }

    /** `get_connected`, taking the device number the route supplies. */
    method GetConnected(deviceNumber: int) returns (r: AlpacaRecord)
      requires Valid()
      ensures r == AlpacaResponse(state[ConnectedKey])
      ensures r.errorNumber == 0 && r.errorMessage == ""
    {
      r := AlpacaResponse(state[ConnectedKey]);
    }

    /** `get_interfaceversion`: answers with the connected cell, exactly
        like `get_connected`. */
    method GetInterfaceVersion(deviceNumber: int) returns (r: AlpacaRecord)
      requires Valid()
      ensures r == AlpacaResponse(state[ConnectedKey])
      ensures r.errorNumber == 0 && r.errorMessage == ""
    {
      r := AlpacaResponse(state[ConnectedKey]);
    }
  }

  /** A PUT of `connected` followed by a GET: the GET (and the interface
      version) answers with what the PUT stored, and the PUT's own envelope
      carries no "Value". */
  method PutThenGet(t: TelescopeState, deviceNumber: int, form: map<string, string>, query: map<string, string>, response: HttpResponse)
    returns (put: Result<Envelope>, got: AlpacaRecord, version: AlpacaRecord)
    requires t.Valid()
    modifies t, response
    ensures put == StdResult(query)
    ensures put.Ok? ==> "Value" !in put.value.Keys()
    ensures got == version == AlpacaResponse(FormConnected(form))
    ensures "Connected" in form ==> got.value == StrValue(form["Connected"])
    ensures "Connected" !in form ==> got.value == BoolValue(false)
    ensures t.state.Keys == old(t.state.Keys)
  {
    put := t.PutConnected(deviceNumber, form, query, response);
    got := t.GetConnected(deviceNumber);
    version := t.GetInterfaceVersion(deviceNumber);
  }

  // ---------------------------------------------------------------------
  // Handler binding as the code is written

  /** The keyword arguments Bottle passes to a handler of a `GetUrl`
      route: its one wildcard. */
  const DeviceRouteArguments: set<string> := {"device_number"}

  /** The parameters `get_connected` and `get_interfaceversion` declare. */
  const ConnectedHandlerParameters: seq<string> :=
    ["device_type", "device_number", "client_id", "client_transaction_id"]

  /** Python's call `handler(**arguments)` for parameters without defaults:
      every parameter needs an argument and no argument may be left over. */
  function BindKeywords(parameters: seq<string>, arguments: set<string>): Result<()> {
    if exists a :: a in arguments && a !in parameters then
      Err(TypeError("got an unexpected keyword argument"))
    else if exists p :: p in parameters && p !in arguments then
      Err(TypeError("missing required positional argument"))
    else Ok(())
  }

  /** As written, a GET of `connected` or `interfaceversion` cannot reach
      the handler body: the call raises TypeError. */
  lemma ConnectedHandlerAsWrittenRaises()
    ensures BindKeywords(ConnectedHandlerParameters, DeviceRouteArguments) ==
      Err(TypeError("missing required positional argument"))
  {
    assert "device_type" in ConnectedHandlerParameters;
  }

  /** A handler that takes only `device_number`, as every other telescope
      handler does, binds. */
  lemma DeviceNumberHandlerBinds()
    ensures BindKeywords(["device_number"], DeviceRouteArguments) == Ok(())
  {
  }

  /** A session against a fresh server: the cell starts False, and a PUT
      with `Connected=true` and a numeric client transaction id stores the
      text "true" and echoes the id. */
  method ConnectScenario() {
    var t := new TelescopeState();
    var response := new HttpResponse();
    var got := t.GetConnected(0);
    assert got.value == BoolValue(false);
    var query := map["ClientTransactionID" := IntToDecimal(7)];
    assert query["ClientTransactionID"] == "" + IntToDecimal(7) + "";
    ClientTransactionIdEchoes(query, "", 7, "");
    var put := t.PutConnected(0, map["Connected" := "true"], query, response);
    assert put == Ok(Envelope(7, 0, 0, "", None));
    got := t.GetConnected(0);
    assert got.value == StrValue("true");
  }

  /** A PUT with `Connected=False` and an unparsable client transaction id
      raises, but only after it has stored the truthy text "False". */
  method FailedPutScenario() {
    var t := new TelescopeState();
    var response := new HttpResponse();
    var query := map["ClientTransactionID" := "x"];
    NonNumericClientTransactionIdRaises(query);
    var put := t.PutConnected(0, map["Connected" := "False"], query, response);
    assert put.Err?;
    var got := t.GetConnected(0);
    assert got.value == StrValue("False") && Truthy(got.value);
  }
}
