/** The single-field view: a map click fetches the delineated field at that
    point and draws it; the field's season-field record is then looked up; the
    NDVI button fetches the sensor catalog, then the image for its first entry,
    and lays that image over the polygon.

    Every `fetch` becomes an in-flight `Request`; its completion is a separate
    event that may be applied in any order. No completion handler checks that
    the selection it was issued for is still current, and an overlay is added
    without removing an earlier one, so overlays can stack. */
module SingleLand {
  import opened Common
  import opened Geo

  // ---------------------------------------------------------------------------
  // Reply shapes.

  /** A season-field record; only its id is used by the workflow. */
  datatype SeasonField = SeasonField(id: string, cropName: string)

  /** One entry of `maps` in a catalog entry. */
  datatype MapInfo = MapInfo(mapType: string)

  /** One catalog entry: `image.id` (missing if `image` or its id is) and `maps`
      (missing if absent or not an array). */
  datatype CatalogEntry = CatalogEntry(imageId: Option<string>, maps: Option<seq<MapInfo>>)

  /** One map of an image reply: its `_links` object, if any. */
  datatype ImageMap = ImageMap(links: Option<map<string, string>>)

  /** One element of an image reply: its `maps`, if present and an array. */
  datatype ImageResult = ImageResult(maps: Option<seq<ImageMap>>)

  const PngLink := "image:image/png"

  // ---------------------------------------------------------------------------
  // Map layers.

  /** The field polygon on the map with its current fill opacity. */
  datatype DrawnPolygon = DrawnPolygon(feature: Feature, fillOpacity: real)

  /** An image overlay on the map; `id` stands for the Leaflet layer object. */
  datatype Overlay = Overlay(id: nat, url: string, opacity: real)

  const FillOpacity: real := 0.3
  const OverlayOpacity: real := 0.7
  const ShowLabel := "Show NDVI"
  const HideLabel := "Hide NDVI"

  // ---------------------------------------------------------------------------
  // Requests and their completions.

  datatype Request =
    | TokenRequest
    | FieldAt(lng: real, lat: real)
    | SeasonFieldsFor(fieldId: string)
    | SensorCatalogFor(imageType: string)
    | ImageFor(imageSensorId: string, seasonFieldId: string, imageType: string)

  datatype Completion =
    | TokenDone(tokenReply: Reply<Option<string>>)
    | FieldDone(fieldReply: Reply<Option<Feature>>)
    | SeasonDone(seasonReply: Reply<ArrayBody<SeasonField>>)
    | CatalogDone(catalogReply: Reply<ArrayBody<CatalogEntry>>)
    | ImageDone(imageReply: Reply<ArrayBody<ImageResult>>)

  /** A completion answers a request of its own kind. */
  predicate Answers(c: Completion, q: Request)
  {
    match q
    case TokenRequest => c.TokenDone?
    case FieldAt(_, _) => c.FieldDone?
    case SeasonFieldsFor(_) => c.SeasonDone?
    case SensorCatalogFor(_) => c.CatalogDone?
    case ImageFor(_, _, _) => c.ImageDone?
  }

  // ---------------------------------------------------------------------------
  // The component's state.

  datatype State = State(
    token: string,
    polygon: Option<DrawnPolygon>,
    seasonFieldInfo: Option<SeasonField>,
    showNdvi: bool,
    imageUrl: string,
    imageData: Option<ArrayBody<ImageResult>>,
    ndviData: Option<ArrayBody<CatalogEntry>>,
    imageSensorId: string,
    mapsArray: seq<MapInfo>,
    /** The options of the image-type select. */
    typeOptions: seq<string>,
    selectedImageType: string,
    /** Image overlays on the map, in the order they were added. */
    overlays: seq<Overlay>,
    /** The overlay the component refers to as `ndviLayer`. */
    ndviLayer: Option<nat>,
    nextLayerId: nat,
    buttonLabel: string,
    ndviControlVisible: bool,
    imageTypeControlVisible: bool,
    loading: bool,
    status: Status,
    pending: seq<Request>)

  /** After `ngAfterViewInit`: the map is built and the token request is in flight. */
  function Init(): State
  {
    State("", None, None, false, "", None, None, "", [], [], "NDVI", [], None, 0,
          ShowLabel, false, false, false, InitialStatus, [TokenRequest])
  }

  function LabelFor(showNdvi: bool): string
  {
    if showNdvi then HideLabel else ShowLabel
  }

  /** An overlay with this id is on the map. */
  predicate OnMap(overlays: seq<Overlay>, id: nat)
  {
    exists i :: 0 <= i < |overlays| && overlays[i].id == id
  }

  /** `polygonLayer.setStyle({fillOpacity})` when a polygon exists. */
  function SetFill(s: State, opacity: real): (r: State)
    ensures s.polygon.Some? ==> r.polygon == Some(s.polygon.value.(fillOpacity := opacity))
    ensures s.polygon.None? ==> r == s
    ensures r.(polygon := s.polygon) == s
  {
    if s.polygon.Some? then s.(polygon := Some(s.polygon.value.(fillOpacity := opacity))) else s
  }

  // ---------------------------------------------------------------------------
  // Overlays.

  /** `map.removeLayer(layer)`: the overlay with this id leaves the map. */
  function RemoveLayer(overlays: seq<Overlay>, id: nat): (r: seq<Overlay>)
    ensures forall o :: o in r <==> o in overlays && o.id != id
    ensures |r| <= |overlays|
    decreases |overlays|
  {
    if |overlays| == 0 then []
    else
      var rest := RemoveLayer(overlays[1..], id);
      assert forall o :: o in overlays <==> o == overlays[0] || o in overlays[1..];
      if overlays[0].id == id then rest else [overlays[0]] + rest
  }

  /** `removeNDVIOverlay`. */
  function RemoveNdviOverlay(s: State): (r: State)
    ensures s.ndviLayer.None? ==> r == s
    ensures s.ndviLayer.Some? ==>
              && r.ndviLayer.None?
              && r.imageUrl == ""
              && !OnMap(r.overlays, s.ndviLayer.value)
              && (forall o :: o in s.overlays && o.id != s.ndviLayer.value ==> o in r.overlays)
              && (s.polygon.Some? ==> r.polygon.Some? && r.polygon.value.fillOpacity == FillOpacity)
              && r.status == Status(s.selectedImageType + " overlay removed", Info)
    ensures r.showNdvi == s.showNdvi && r.pending == s.pending && r.nextLayerId == s.nextLayerId
    ensures r.token == s.token && r.seasonFieldInfo == s.seasonFieldInfo && r.buttonLabel == s.buttonLabel
    ensures r.polygon.Some? <==> s.polygon.Some?
    ensures forall o :: o in r.overlays ==> o in s.overlays
  {
    if s.ndviLayer.None? then s
    else
      var removed := s.(overlays := RemoveLayer(s.overlays, s.ndviLayer.value), ndviLayer := None, imageUrl := "");
      SetFill(removed, FillOpacity).(status := Status(s.selectedImageType + " overlay removed", Info))
  }

  /** `addNDVIOverlay`: needs a polygon and a non-empty image URL; lays a new
      overlay at opacity 0.7 over the polygon, clears the polygon's fill, and
      points `ndviLayer` at the new overlay without removing the old one. */
  function AddNdviOverlay(s: State): (r: State)
    ensures s.polygon.None? ==> r == s
    ensures s.polygon.Some? && s.imageUrl == "" ==>
              r == s.(status := Status("No image URL available", Error))
    ensures s.polygon.Some? && s.imageUrl != "" ==>
              && r.overlays == s.overlays + [Overlay(s.nextLayerId, s.imageUrl, OverlayOpacity)]
              && r.ndviLayer == Some(s.nextLayerId)
              && r.nextLayerId > s.nextLayerId
              && r.polygon == Some(s.polygon.value.(fillOpacity := 0.0))
              && r.status == Status(s.selectedImageType + " overlay added", Success)
    ensures r.showNdvi == s.showNdvi && r.pending == s.pending && r.buttonLabel == s.buttonLabel
    ensures r.token == s.token && r.seasonFieldInfo == s.seasonFieldInfo && r.imageUrl == s.imageUrl
  {
    if s.polygon.None? then s
    else if s.imageUrl == "" then s.(status := Status("No image URL available", Error))
    else
      var id := s.nextLayerId;
      var added := s.(overlays := s.overlays + [Overlay(id, s.imageUrl, OverlayOpacity)],
                      ndviLayer := Some(id), nextLayerId := id + 1);
      SetFill(added, 0.0).(status := Status(s.selectedImageType + " overlay added", Success))
  }

  // ---------------------------------------------------------------------------
  // Issuing the overlay requests.

  const NoAuthMessage := "Authentication token not available"
  const NoSensorIdMessage := "Image sensor ID not available"

  /** `fetchSensorInfo`: without a token only an error status; otherwise a
      catalog request for the selected image type. */
  function FetchSensorInfo(s: State): (r: State)
    ensures s.token == "" ==> r == s.(status := Status(NoAuthMessage, Error))
    ensures s.token != "" ==>
              r == s.(loading := true, status := Status("Fetching NDVI data...", Info),
                      pending := s.pending + [SensorCatalogFor(s.selectedImageType)])
  {
    if s.token == "" then s.(status := Status(NoAuthMessage, Error))
    else s.(loading := true, status := Status("Fetching NDVI data...", Info),
            pending := s.pending + [SensorCatalogFor(s.selectedImageType)])
  }

  /** The result of calling a method that may throw: the state it reached. */
  datatype Outcome = Returned(state: State) | Threw(state: State)

  /** `fetchImageData`. The token is checked before the sensor id; with both
      present the request body reads `seasonFieldInfo.id`, which throws a
      TypeError when no season-field record is held. */
  function FetchImageData(s: State): (r: Outcome)
    ensures s.token == "" ==> r == Returned(s.(status := Status(NoAuthMessage, Error)))
    ensures s.token != "" && s.imageSensorId == "" ==> r == Returned(s.(status := Status(NoSensorIdMessage, Error)))
    ensures r.Threw? <==> s.token != "" && s.imageSensorId != "" && s.seasonFieldInfo.None?
    ensures r.state.pending == s.pending || (r.Returned? && r.state.pending ==
              s.pending + [ImageFor(s.imageSensorId, s.seasonFieldInfo.value.id, s.selectedImageType)])
    ensures |r.state.pending| > |s.pending| <==> s.token != "" && s.imageSensorId != "" && s.seasonFieldInfo.Some?
    ensures r.state.(status := s.status, loading := s.loading, pending := s.pending) == s
  {
    if s.token == "" then Returned(s.(status := Status(NoAuthMessage, Error)))
    else if s.imageSensorId == "" then Returned(s.(status := Status(NoSensorIdMessage, Error)))
    else
      var busy := s.(loading := true, status := Status("Fetching map data...", Info));
      if s.seasonFieldInfo.None? then Threw(busy)
      else Returned(busy.(pending := s.pending + [ImageFor(s.imageSensorId, s.seasonFieldInfo.value.id, s.selectedImageType)]))
  }

  // ---------------------------------------------------------------------------
  // User events.

  /** A map click (`fetchAndDrawPolygon`): reset the selection-dependent state,
      remove the overlay, hide the image-type control, and fetch the field. */
  function MapClick(s: State, lng: real, lat: real): (r: State)
    ensures r.seasonFieldInfo.None? && !r.showNdvi && r.imageUrl == "" && r.imageData.None?
    ensures r.buttonLabel == ShowLabel && !r.imageTypeControlVisible
    ensures r.ndviLayer.None? && (s.ndviLayer.Some? ==> !OnMap(r.overlays, s.ndviLayer.value))
    ensures r.loading && r.status == Status("Fetching field data...", Info)
    ensures r.pending == s.pending + [FieldAt(lng, lat)]
    ensures r.token == s.token && r.imageSensorId == s.imageSensorId
    ensures r.polygon.Some? <==> s.polygon.Some?
  {
    var reset := s.(seasonFieldInfo := None, showNdvi := false, imageUrl := "", imageData := None,
                    buttonLabel := ShowLabel);
    var removed := RemoveNdviOverlay(reset);
    removed.(imageTypeControlVisible := false, loading := true,
             status := Status("Fetching field data...", Info),
             pending := removed.pending + [FieldAt(lng, lat)])
  }

  /** The NDVI button (`toggleNDVI`). */
  function ToggleNdvi(s: State): (r: State)
    ensures s.polygon.None? ==> r == s
    ensures s.polygon.Some? ==> r.showNdvi == !s.showNdvi
    ensures s.polygon.Some? ==> (r.buttonLabel == HideLabel <==> r.showNdvi)
    ensures s.polygon.Some? && !s.showNdvi && s.token != "" ==>
              r.pending == s.pending + [SensorCatalogFor(s.selectedImageType)] && r.loading
    ensures s.polygon.Some? && !s.showNdvi && s.token == "" ==>
              r.pending == s.pending && r.status == Status(NoAuthMessage, Error)
    ensures s.polygon.Some? && s.showNdvi ==>
              && r.ndviLayer.None?
              && (s.ndviLayer.Some? ==> !OnMap(r.overlays, s.ndviLayer.value))
              && !r.imageTypeControlVisible
              && r.polygon.Some? && r.polygon.value.fillOpacity == FillOpacity
              && r.pending == s.pending
  {
    if s.polygon.None? then s
    else
      var flipped := s.(showNdvi := !s.showNdvi);
      var next :=
        if flipped.showNdvi then FetchSensorInfo(flipped)
        else SetFill(RemoveNdviOverlay(flipped).(imageTypeControlVisible := false), FillOpacity);
      next.(buttonLabel := LabelFor(next.showNdvi))
  }

  /** The image-type select's `change` handler: store the type and fetch the
      catalog again (the current overlay is left in place). */
  function ImageTypeChanged(s: State, imageType: string): (r: State)
    ensures r.selectedImageType == imageType
    ensures r.overlays == s.overlays && r.ndviLayer == s.ndviLayer
    ensures s.token != "" ==> r.pending == s.pending + [SensorCatalogFor(imageType)] && r.loading
    ensures s.token == "" ==> r.pending == s.pending && r.status == Status(NoAuthMessage, Error)
  {
    FetchSensorInfo(s.(selectedImageType := imageType))
  }

  // ---------------------------------------------------------------------------
  // Completions.

  /** `after` is `before` with at most one request appended. */
  predicate AppendsAtMostOne(before: seq<Request>, after: seq<Request>)
  {
    |before| <= |after| <= |before| + 1 && after[..|before|] == before
  }

  /** The component's own token fetch: a truthy `access_token` is stored; any
      failure is only logged. */
  function HandleToken(s: State, reply: Reply<Option<string>>): (r: State)
    ensures reply.Received? && Truthy(reply.body) ==> r == s.(token := reply.body.value)
    ensures !(reply.Received? && Truthy(reply.body)) ==> r == s
  {
    if reply.Received? && Truthy(reply.body) then s.(token := reply.body.value) else s
  }

  /** The field reply of `fetchAndDrawPolygon`: a GeoJSON with a geometry
      replaces the drawn polygon (fill 0.3), shows the NDVI button and, when
      the feature has a truthy id, looks up its season field. */
  function HandleField(s: State, reply: Reply<Option<Feature>>): (r: State)
    ensures !r.loading
    ensures reply.TransportFailed? ==> r == s.(status := Status("Error loading field data", Error), loading := false)
    ensures reply.Received? && (reply.body.None? || reply.body.value.geometry.None?) ==>
              r == s.(status := Status("No field data found at this location", Error), loading := false)
    ensures reply.Received? && reply.body.Some? && reply.body.value.geometry.Some? ==>
              && r.polygon == Some(DrawnPolygon(reply.body.value, FillOpacity))
              && r.ndviControlVisible
              && r.status == Status("Field data loaded successfully", Success)
              && r.pending == s.pending + (if Truthy(reply.body.value.id) then [SeasonFieldsFor(reply.body.value.id.value)] else [])
    ensures r.overlays == s.overlays && r.ndviLayer == s.ndviLayer && r.nextLayerId == s.nextLayerId
    ensures r.showNdvi == s.showNdvi && r.buttonLabel == s.buttonLabel
    ensures s.polygon.Some? ==> r.polygon.Some?
    ensures r.token == s.token && AppendsAtMostOne(s.pending, r.pending)
  {
    match reply
    case TransportFailed(_) => s.(status := Status("Error loading field data", Error), loading := false)
    case Received(geojson) =>
      if geojson.None? || geojson.value.geometry.None? then
        s.(status := Status("No field data found at this location", Error), loading := false)
      else
        var f := geojson.value;
        var drawn := s.(polygon := Some(DrawnPolygon(f, FillOpacity)), ndviControlVisible := true,
                        status := Status("Field data loaded successfully", Success), loading := false);
        if Truthy(f.id) then drawn.(pending := drawn.pending + [SeasonFieldsFor(f.id.value)]) else drawn
  }

  /** The season-field reply: the first record of a non-empty array, `null`
      otherwise or on failure. Applied whatever has been selected since. */
  function HandleSeason(s: State, reply: Reply<ArrayBody<SeasonField>>): (r: State)
    ensures reply.Received? ==> r == s.(seasonFieldInfo := FirstOrNull(reply.body))
    ensures reply.TransportFailed? ==> r == s.(seasonFieldInfo := None)
  {
    match reply
    case TransportFailed(_) => s.(seasonFieldInfo := None)
    case Received(body) => s.(seasonFieldInfo := FirstOrNull(body))
  }

  /** `result[0].image.id`, when the catalog reply has a first entry with a truthy one. */
  function CatalogImageId(body: ArrayBody<CatalogEntry>): (r: Option<string>)
    ensures r.Some? ==> r.value != "" && body.AnArray? && |body.items| > 0 && body.items[0].imageId == r
    ensures r.None? ==> !(body.AnArray? && |body.items| > 0 && Truthy(body.items[0].imageId))
  {
    if body.AnArray? && |body.items| > 0 && Truthy(body.items[0].imageId) then body.items[0].imageId else None
  }

  /** `populateImageTypeControl`: a non-empty maps array replaces the options. */
  function TypeOptions(current: seq<string>, maps: seq<MapInfo>): (r: seq<string>)
    ensures |maps| == 0 ==> r == current
    ensures |maps| > 0 ==> |r| == |maps| && forall i :: 0 <= i < |maps| ==> r[i] == maps[i].mapType
  {
    if |maps| == 0 then current else seq(|maps|, i requires 0 <= i < |maps| => maps[i].mapType)
  }

  /** The extraction step of the catalog reply: record it, take the sensor id
      of the first entry when present, and its maps when they are an array
      (which fills and shows the image-type control). Nothing else changes. */
  function RecordCatalog(s: State, body: ArrayBody<CatalogEntry>): (r: State)
    ensures r.ndviData == Some(body)
    ensures r.imageSensorId == (var id := CatalogImageId(body); if id.Some? then id.value else s.imageSensorId)
    ensures body.AnArray? && |body.items| > 0 && body.items[0].maps.Some? ==>
              var maps := body.items[0].maps.value;
              && r.mapsArray == maps
              && r.typeOptions == TypeOptions(s.typeOptions, maps)
              && r.imageTypeControlVisible
    ensures !(body.AnArray? && |body.items| > 0 && body.items[0].maps.Some?) ==>
              r.mapsArray == s.mapsArray && r.typeOptions == s.typeOptions
              && r.imageTypeControlVisible == s.imageTypeControlVisible
    ensures r.(ndviData := s.ndviData, imageSensorId := s.imageSensorId, mapsArray := s.mapsArray,
               typeOptions := s.typeOptions, imageTypeControlVisible := s.imageTypeControlVisible) == s
  {
    var recorded := s.(ndviData := Some(body));
    var id := CatalogImageId(body);
    var withId := if id.Some? then recorded.(imageSensorId := id.value) else recorded;
    if body.AnArray? && |body.items| > 0 && body.items[0].maps.Some? then
      var maps := body.items[0].maps.value;
      withId.(mapsArray := maps, typeOptions := TypeOptions(withId.typeOptions, maps), imageTypeControlVisible := true)
    else withId
  }

  /** The end of the catalog chain: the loading flag is cleared after
      `fetchImageData` returns, and a throw from it lands in the chain's `catch`. */
  function SettleImageCall(o: Outcome): (r: State)
    ensures !r.loading
    ensures o.Returned? ==> r == o.state.(loading := false)
    ensures o.Threw? ==> r == o.state.(status := Status("Error loading NDVI data", Error), loading := false)
  {
    match o
    case Returned(t) => t.(loading := false)
    case Threw(t) => t.(status := Status("Error loading NDVI data", Error), loading := false)
  }

  /** The catalog reply of `fetchSensorInfo`: record it, report success, then
      call `fetchImageData`. */
  function HandleCatalog(s: State, reply: Reply<ArrayBody<CatalogEntry>>): (r: State)
    ensures !r.loading
    ensures reply.TransportFailed? ==> r == s.(status := Status("Error loading NDVI data", Error), loading := false)
    ensures reply.Received? ==>
              && r.ndviData == Some(reply.body)
              && r.imageSensorId == (var id := CatalogImageId(reply.body); if id.Some? then id.value else s.imageSensorId)
    ensures r.overlays == s.overlays && r.ndviLayer == s.ndviLayer && r.nextLayerId == s.nextLayerId
    ensures r.imageUrl == s.imageUrl && r.polygon == s.polygon
    ensures r.showNdvi == s.showNdvi && r.buttonLabel == s.buttonLabel
    // at most the image request is added to what was in flight
    ensures AppendsAtMostOne(s.pending, r.pending) && r.token == s.token
  {
    match reply
    case TransportFailed(_) => s.(status := Status("Error loading NDVI data", Error), loading := false)
    case Received(body) =>
      var loaded := RecordCatalog(s, body).(status := Status("Sensor data loaded successfully", Success));
      SettleImageCall(FetchImageData(loaded))
  }

  /** `result[0].maps[0]._links['image:image/png']`, when every step exists and
      the link is truthy. */
  function PngUrl(body: ArrayBody<ImageResult>): (r: Option<string>)
    ensures r.Some? <==>
              && body.AnArray? && |body.items| > 0
              && body.items[0].maps.Some? && |body.items[0].maps.value| > 0
              && body.items[0].maps.value[0].links.Some?
              && PngLink in body.items[0].maps.value[0].links.value
              && body.items[0].maps.value[0].links.value[PngLink] != ""
    ensures r.Some? ==> r.value == body.items[0].maps.value[0].links.value[PngLink]
  {
    if body.AnArray? && |body.items| > 0 && body.items[0].maps.Some? && |body.items[0].maps.value| > 0 then
      var firstMap := body.items[0].maps.value[0];
      if firstMap.links.Some? && PngLink in firstMap.links.value && firstMap.links.value[PngLink] != "" then
        Some(firstMap.links.value[PngLink])
      else None
    else None
  }

  /** The image reply of `fetchImageData`: record it, take the PNG link if
      present (otherwise keep the current URL), then `addNDVIOverlay`. */
  function HandleImage(s: State, reply: Reply<ArrayBody<ImageResult>>): (r: State)
    ensures !r.loading
    ensures reply.TransportFailed? ==> r == s.(status := Status("Error loading map data", Error), loading := false)
    ensures reply.Received? ==>
              && r.imageData == Some(reply.body)
              && r.imageUrl == (var url := PngUrl(reply.body); if url.Some? then url.value else s.imageUrl)
              && r.pending == s.pending
    ensures r.token == s.token
    // then `addNDVIOverlay` runs with the URL just recorded
    ensures reply.Received? && s.polygon.None? ==>
              r.overlays == s.overlays && r.ndviLayer == s.ndviLayer
              && r.status == Status("Map data loaded successfully", Success)
    ensures reply.Received? && s.polygon.Some? && r.imageUrl == "" ==>
              r.overlays == s.overlays && r.ndviLayer == s.ndviLayer && r.polygon == s.polygon
              && r.status == Status("No image URL available", Error)
    ensures reply.Received? && s.polygon.Some? && r.imageUrl != "" ==>
              && r.overlays == s.overlays + [Overlay(s.nextLayerId, r.imageUrl, OverlayOpacity)]
              && r.ndviLayer == Some(s.nextLayerId)
              && r.polygon == Some(s.polygon.value.(fillOpacity := 0.0))
              && r.status == Status(s.selectedImageType + " overlay added", Success)
  {
    match reply
    case TransportFailed(_) => s.(status := Status("Error loading map data", Error), loading := false)
    case Received(body) =>
      var url := PngUrl(body);
      var recorded := s.(imageData := Some(body), imageUrl := if url.Some? then url.value else s.imageUrl);
      AddNdviOverlay(recorded.(status := Status("Map data loaded successfully", Success))).(loading := false)
  }

  /** Completion of in-flight request `i`, in whatever order replies arrive. */
  function Complete(s: State, i: nat, c: Completion): (r: State)
    requires i < |s.pending| && Answers(c, s.pending[i])
    // the answered request leaves the in-flight list, the others stay in
    // order, and a reply issues at most one follow-up request
    ensures AppendsAtMostOne(RemoveAt(s.pending, i), r.pending)
    ensures c.TokenDone? || c.SeasonDone? || c.ImageDone? ==> r.pending == RemoveAt(s.pending, i)
    ensures !c.TokenDone? ==> r.token == s.token
  {
    var rest := RemoveAt(s.pending, i);
    var s' := s.(pending := rest);
    match c
    case TokenDone(reply) => HandleToken(s', reply)
    case FieldDone(reply) => HandleField(s', reply)
    case SeasonDone(reply) => HandleSeason(s', reply)
    case CatalogDone(reply) => HandleCatalog(s', reply)
    case ImageDone(reply) => HandleImage(s', reply)
  }

  datatype Event =
    | Click(lng: real, lat: real)
    | NdviButton
    | ImageTypeSelected(imageType: string)
    | Completed(index: nat, completion: Completion)

  predicate Enabled(s: State, e: Event)
  {
    e.Completed? ==> e.index < |s.pending| && Answers(e.completion, s.pending[e.index])
  }

  function Step(s: State, e: Event): State
    requires Enabled(s, e)
  {
    match e
    case Click(lng, lat) => MapClick(s, lng, lat)
    case NdviButton => ToggleNdvi(s)
    case ImageTypeSelected(t) => ImageTypeChanged(s, t)
    case Completed(i, c) => Complete(s, i, c)
  }
}
