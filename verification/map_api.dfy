/** The gateway service: a cached bearer token, and for each remote call the
    synchronous guards that run before any request is made and the checks
    applied to the reply. A call that passes its guards is `Sent` and settles
    later with a result; one that fails them `Threw` and issued nothing. */
module MapApi {
  import opened Common
  import opened Geo

  /** The service's only state: the cached token, `''` until a token arrives. */
  datatype Service = Service(token: string)

  function Init(): Service
  {
    Service("")
  }

  /** The current token: empty exactly while no token has been cached. */
  function GetToken(svc: Service): (r: string)
    ensures r == "" <==> svc == Init()
  {
    svc.token
  }

  const NoTokenMessage := "No access token received"
  const NoAuthMessage := "Authentication token not available"
  const NoSensorIdMessage := "Image sensor ID not available"
  const NoFieldMessage := "No field data found at this location"
  const NoSensorDataMessage := "No sensor data found"
  const NoImageDataMessage := "No image data found"

  /** `fetchToken` settling with the identity service's reply, whose
      `access_token` may be missing. A truthy token is cached and resolved;
      otherwise the promise rejects and the cache is untouched. */
  function FetchToken(svc: Service, reply: Reply<Option<string>>): (r: (Service, Result<string>))
    ensures (reply.Received? && Truthy(reply.body)) ==> r.0 == Service(reply.body.value) && r.1 == Ok(reply.body.value)
    ensures !(reply.Received? && Truthy(reply.body)) ==> r.0 == svc && r.1.Err?
    ensures reply.Received? && !Truthy(reply.body) ==> r.1 == Err(NoTokenMessage)
  {
    match reply
    case TransportFailed(reason) => (svc, Err(reason))
    case Received(accessToken) =>
      if Truthy(accessToken) then (Service(accessToken.value), Ok(accessToken.value))
      else (svc, Err(NoTokenMessage))
  }

  /** The token is empty until a successful `fetchToken`, after which every
      read returns what was received, and a failed fetch does not disturb it. */
  lemma TokenCache(t: string, failed: Reply<Option<string>>)
    requires t != ""
    requires !(failed.Received? && Truthy(failed.body))
    ensures GetToken(Init()) == ""
    ensures var svc := FetchToken(Init(), Received(Some(t))).0;
            GetToken(svc) == t && GetToken(FetchToken(svc, failed).0) == t
  {
  }

  /** `fetchFieldData`: the GeoJSON resolves unchanged iff it has a geometry. */
  function FetchFieldData(reply: Reply<Option<Feature>>): (r: Result<Feature>)
    ensures r.Ok? <==> reply.Received? && reply.body.Some? && reply.body.value.geometry.Some?
    ensures r.Ok? ==> r.value == reply.body.value
    ensures reply.Received? && r.Err? ==> r.message == NoFieldMessage
  {
    match reply
    case TransportFailed(reason) => Err(reason)
    case Received(geojson) =>
      if geojson.Some? && geojson.value.geometry.Some? then Ok(geojson.value)
      else Err(NoFieldMessage)
  }

  // ---------------------------------------------------------------------------
  // Authorized calls.

  /** The request a call issues; URLs, headers and bodies are configuration. */
  datatype Request =
    | SeasonFieldsSearch(token: string, fieldId: string)
    | SensorCatalogQuery(token: string, imageType: string)
    | ImageDataQuery(token: string, imageSensorId: string, seasonFieldId: string, imageType: string)

  /** A call either throws before any request, or sends one and settles later. */
  datatype Call<+T> = Threw(message: string) | Sent(request: Request, outcome: Result<T>)

  /** Reply handling of `fetchSeasonFields`: the first element of a non-empty
      array, otherwise `null`; a transport failure rejects. */
  function SeasonFieldsOutcome<T>(reply: Reply<ArrayBody<T>>): (r: Result<Option<T>>)
    ensures reply.Received? ==> r == Ok(FirstOrNull(reply.body))
    ensures reply.TransportFailed? ==> r == Err(reply.reason)
  {
    match reply
    case TransportFailed(reason) => Err(reason)
    case Received(body) => Ok(FirstOrNull(body))
  }

  /** Reply handling shared by `fetchSensorInfo` and `fetchImageData`: reject
      unless the reply is a non-empty array, which resolves unchanged. */
  function ArrayOutcome<T>(reply: Reply<ArrayBody<T>>, emptyMessage: string): (r: Result<seq<T>>)
    ensures r.Ok? <==> reply.Received? && reply.body.AnArray? && |reply.body.items| > 0
    ensures r.Ok? ==> r.value == reply.body.items
    ensures reply.Received? && r.Err? ==> r.message == emptyMessage
  {
    match reply
    case TransportFailed(reason) => Err(reason)
    case Received(body) => NonEmptyArray(body, emptyMessage)
  }

  function FetchSeasonFields<T>(svc: Service, fieldId: string, reply: Reply<ArrayBody<T>>): (r: Call<Option<T>>)
    ensures svc.token == "" <==> r == Threw(NoAuthMessage)
    ensures svc.token != "" ==> r.Sent? && r.request == SeasonFieldsSearch(svc.token, fieldId)
    ensures r.Sent? && reply.Received? ==> r.outcome == Ok(FirstOrNull(reply.body))
  {
    if svc.token == "" then Threw(NoAuthMessage)
    else Sent(SeasonFieldsSearch(svc.token, fieldId), SeasonFieldsOutcome(reply))
  }

  function FetchSensorInfo<T>(svc: Service, imageType: string, reply: Reply<ArrayBody<T>>): (r: Call<seq<T>>)
    ensures svc.token == "" <==> r == Threw(NoAuthMessage)
    ensures svc.token != "" ==> r.Sent? && r.request == SensorCatalogQuery(svc.token, imageType)
    ensures r.Sent? ==> (r.outcome.Ok? <==> reply.Received? && reply.body.AnArray? && |reply.body.items| > 0)
    ensures r.Sent? && r.outcome.Ok? ==> r.outcome.value == reply.body.items
  {
    if svc.token == "" then Threw(NoAuthMessage)
    else Sent(SensorCatalogQuery(svc.token, imageType), ArrayOutcome(reply, NoSensorDataMessage))
  }

  /** The token guard runs before the sensor-id guard. */
  function FetchImageData<T>(svc: Service, imageSensorId: string, seasonFieldId: string, imageType: string,
                             reply: Reply<ArrayBody<T>>): (r: Call<seq<T>>)
    ensures svc.token == "" ==> r == Threw(NoAuthMessage)
    ensures svc.token != "" && imageSensorId == "" ==> r == Threw(NoSensorIdMessage)
    ensures r.Sent? <==> svc.token != "" && imageSensorId != ""
    ensures r.Sent? ==> r.request == ImageDataQuery(svc.token, imageSensorId, seasonFieldId, imageType)
    ensures r.Sent? ==> (r.outcome.Ok? <==> reply.Received? && reply.body.AnArray? && |reply.body.items| > 0)
    ensures r.Sent? && r.outcome.Ok? ==> r.outcome.value == reply.body.items
  {
    if svc.token == "" then Threw(NoAuthMessage)
    else if imageSensorId == "" then Threw(NoSensorIdMessage)
    else Sent(ImageDataQuery(svc.token, imageSensorId, seasonFieldId, imageType), ArrayOutcome(reply, NoImageDataMessage))
  }

  /** Before any token has arrived, every authorized call throws without
      sending a request, whatever reply the server would have given. */
  lemma NoTokenNoRequest<T>(fieldId: string, imageType: string, sensorId: string, seasonFieldId: string,
                            reply: Reply<ArrayBody<T>>)
    ensures !FetchSeasonFields(Init(), fieldId, reply).Sent?
    ensures !FetchSensorInfo(Init(), imageType, reply).Sent?
    ensures FetchImageData(Init(), sensorId, seasonFieldId, imageType, reply) == Threw(NoAuthMessage)
  {
  }

  /** Once a token is cached, an image call with an empty sensor id still
      throws, now with the sensor-id message. */
  lemma SensorIdCheckedAfterToken<T>(t: string, seasonFieldId: string, imageType: string, reply: Reply<ArrayBody<T>>)
    requires t != ""
    ensures var svc := FetchToken(Init(), Received(Some(t))).0;
            FetchImageData(svc, "", seasonFieldId, imageType, reply) == Threw(NoSensorIdMessage)
  {
  }
}
