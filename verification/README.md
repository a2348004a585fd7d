# Field-selection and overlay workflow of the vegetation-indices map

This project models, in Dafny, the sequential logic of a single-page mapping
application. The application lets a user pick agricultural fields on a map,
fetch their polygons and season metadata, and lay NDVI imagery over them.
Four pieces are modelled:

- **Bounding-box view** (`bbox.component.ts`). The user draws a rectangle and
  the delineated fields in it are fetched. In `exclusive` mode every fetched
  field is drawn. In `inclusive` mode a field is drawn only when it passes a
  "fully inside" test. The model reproduces what that test actually does:
  - for a `Polygon`, only the outer ring is examined;
  - for a `MultiPolygon`, `flat(1)` yields rings rather than positions, and a
    ring destructured as `[lng, lat]` fails every comparison, so the feature is
    dropped unless it has no ring at all;
  - any other geometry is always kept.
- **Single-field view** (`single-land.component.ts`). A map click fetches the
  field under the point. The field's season record is then looked up. The NDVI
  button fetches the sensor catalog, then the image of its first entry, then
  lays that image over the polygon. The state is an immutable record holding:
  - the polygon and its fill opacity;
  - `showNDVI`, `imageUrl`, `ImageSensorId` and the season record;
  - the token;
  - the image overlays on the map and the one `ndviLayer` refers to;
  - the button label and the visibility of the controls;
  - the loading flag and the status line;
  - the requests in flight.
- **Gateway service** (`map-api.service.ts`). This covers the token cache, the
  synchronous guards that throw before any request is made, and the checks
  applied to each reply.
- **Create-field view** (`create-field.component.ts`). This covers the initial
  load of a fixed box, the last-match-wins choice of the clicked polygon, the
  `isCreating`/`isLoading` flags, the creation payload's location, and the
  restyling of the polygon after the outcome.

Every `fetch` becomes a request in the state's `pending` list. Its completion
is a separate event that names any pending request, so replies are applied in
whatever order they arrive. The code has no check that a reply still belongs
to the current selection, and neither does the model:
`SingleLandProperties.StaleSeasonReplyWins` runs two selections whose season
replies arrive in reverse order, and the older field's record ends up shown.
Overlays are added without removing the earlier one. `OverlaysStack` and
`StackedOverlaySurvivesToggleOff` show that a stacked overlay survives
toggling NDVI off.

The inclusive filter carries the comment "Only keep features fully inside the
bbox" (`bbox.component.ts:287`). The model states what the code does instead:
only outer rings are examined, and MultiPolygons with a ring are always dropped.

Files: `common.dfy` (shared result, reply and status types, decimal counts),
`geo.dfy` (GeoJSON geometry, boxes, envelopes), `bbox_filter.dfy`,
`bbox_view.dfy`, `map_api.dfy`, `single_land.dfy`, `single_land_props.dfy`,
`create_field.dfy`.

## Model

| member | source | states |
|---|---|---|
| BboxFilter.FlatRings | src/app/bbox/bbox.component.ts:293 | `coordinates.flat(1)` holds exactly the rings of the MultiPolygon's polygons, and the first polygon's rings lead, in their own order. |
| BboxFilter.Probes | src/app/bbox/bbox.component.ts:290-295 | The list the callback walks throws iff the geometry is a Polygon without rings. For a Polygon it is the outer ring's positions in order, for a MultiPolygon probe `i` is the `i`-th flattened ring, and for any other geometry it is empty. |
| BboxFilter.Keep | src/app/bbox/bbox.component.ts:289-301 | The callback throws iff the geometry is null or a Polygon without rings. A Polygon passes iff its outer ring lies in the box. A MultiPolygon passes iff its flattened ring list is empty. |
| BboxFilter.Select | src/app/bbox/bbox.component.ts:285-303 | Exclusive mode draws the list unchanged. Inclusive mode succeeds iff no callback throws. A successful result is always an ordered sub-list of the input, and in inclusive mode every element passed. |
| BboxFilter.InclusiveFilter | src/app/bbox/bbox.component.ts:287-302 | The inclusive filter succeeds iff no feature's callback throws. It then yields an order-preserving sub-list of the input in which every element passed. Each passing feature keeps its multiplicity and each failing one is absent. |
| BboxFilter.PolygonKeptIffOuterRingInside | src/app/bbox/bbox.component.ts:289-301 | A Polygon is kept iff every position of its outer ring lies in the closed box. Inner rings are ignored. |
| BboxFilter.MultiPolygonKeptIffNoRings | src/app/bbox/bbox.component.ts:292-301 | A MultiPolygon is kept iff none of its polygons has a ring, because `flat(1)` yields rings that never pass the comparisons. |
| BboxFilter.FlatRingsEmpty | src/app/bbox/bbox.component.ts:293 | `coordinates.flat(1)` is empty iff every polygon of the MultiPolygon has no ring. |
| BboxFilter.OtherGeometryAlwaysKept | src/app/bbox/bbox.component.ts:294-295 | A geometry that is neither a Polygon nor a MultiPolygon gives an empty list and is always kept. |
| BboxFilter.InsideMultiPolygonExcluded | src/app/bbox/bbox.component.ts:292-301 | Concrete case: a MultiPolygon whose only vertex lies inside the box is still dropped. |
| BboxFilter.InclusiveWithinExclusive | src/app/bbox/bbox.component.ts:285-303 | What inclusive mode draws is an ordered sub-list of what exclusive mode draws for the same data and box. |
| BboxFilter.InclusiveOuterRingsInside | src/app/bbox/bbox.component.ts:288-301 | Every Polygon drawn in inclusive mode has an outer ring, and all of that ring lies in the box. |
| BboxFilter.InclusiveDropsMultiPolygons | src/app/bbox/bbox.component.ts:292-301 | No MultiPolygon with a ring is drawn in inclusive mode. |
| BboxView.FetchFields | src/app/bbox/bbox.component.ts:263-267 | Issuing a bbox fetch raises the loading flag, shows the info status and adds one in-flight request for exactly that box. |
| BboxView.DrawCreated | src/app/bbox/bbox.component.ts:195-213 | A drawn rectangle replaces the previous one and is stored as `[sw.lng, sw.lat, ne.lng, ne.lat]`, and that box is fetched. Any other shape only removes the old rectangle. |
| BboxView.OnModeChange | src/app/bbox/bbox.component.ts:74-79 | Without a stored box nothing changes. Otherwise the stored box is fetched again. |
| BboxView.ModeSelected | src/app/bbox/bbox.component.ts:146-150 | The radio handler stores the mode, and it is a pure mode change when no rectangle was drawn. |
| BboxView.HandleFields | src/app/bbox/bbox.component.ts:267-344 | On a transport failure the old layer stays and the load error is shown. A received body first removes the old layer. Missing or empty `features` gives "No fields found". A throwing filter gives the load error. An empty filtered list gives "No fields match". Otherwise exactly the kept features are drawn, with a count message. The loading flag always ends false. |
| BboxView.FieldsArrived | src/app/bbox/bbox.component.ts:267-344 | The answered request leaves the in-flight list and the loading flag falls. A newly drawn inclusive layer passed the filter for the box that request was issued with, not the latest box. A newly drawn exclusive layer is the received list. |
| BboxView.Edited | src/app/bbox/bbox.component.ts:188-191 | The edit toolbar resizes the shown rectangle, and nothing else changes: no handler updates the stored box or fetches. Without a rectangle nothing changes. |
| BboxView.Deleted | src/app/bbox/bbox.component.ts:188-191 | The toolbar's delete removes the rectangle, and the stored box, in-flight requests and drawn fields stay. |
| BboxView.StepInv | src/app/bbox/bbox.component.ts:74-344 | Every event, including toolbar edits and deletes, keeps the invariant: nothing is in flight, drawn or shown before a box is stored, only a rectangle is ever shown, and a drawn layer is never empty. |
| BboxView.ModeChangeAfterEditUsesStaleBox | src/app/bbox/bbox.component.ts:74-79 | After the rectangle is resized, a mode change fetches the box it was first drawn with, not the one shown. |
| BboxView.ModeChangeAfterDeleteRefetches | src/app/bbox/bbox.component.ts:74-79 | After the rectangle is deleted, a mode change still fetches its box again. |
| BboxView.ExclusiveDrawsAllFeatures | src/app/bbox/bbox.component.ts:285-337 | In exclusive mode a non-empty list is drawn unchanged, with the same order and count, and the status reports that count. |
| BboxView.InclusiveDrawsKeptFeatures | src/app/bbox/bbox.component.ts:286-337 | In inclusive mode what is drawn is an ordered sub-list of the fetched features, all of which passed, and the status reports its size. |
| BboxView.ErrorStatusMeansNothingDrawn | src/app/bbox/bbox.component.ts:270-337 | Once a body is received, the status is an error iff nothing is drawn. |
| BboxView.ModeChangeRefetchesLastBox | src/app/bbox/bbox.component.ts:74-79 | A mode change after a rectangle was drawn issues a second request for that rectangle's box. |
| BboxView.ModeChangeWithoutBoxIssuesNothing | src/app/bbox/bbox.component.ts:74-79 | A mode change before any rectangle was drawn issues no request and leaves the status alone. |
| Common.Decimal | src/app/bbox/bbox.component.ts:334-337 | The count in the status message is a non-empty string of decimal digits with no leading zero. |
| Common.DecimalRoundTrip | src/app/bbox/bbox.component.ts:334-337 | The rendered count reads back as the same number. |
| Common.FirstOrNull | src/app/services/map-api.service.ts:137-140 | The result is `result[0]` iff the reply is a non-empty array, and null otherwise. |
| Common.NonEmptyArray | src/app/services/map-api.service.ts:181-184 | The reply is passed on unchanged iff it is a non-empty array. Otherwise the call rejects with the given message. |
| MapApi.GetToken | src/app/services/map-api.service.ts:58-60 | The token read is empty exactly while the service holds no token. |
| MapApi.FetchToken | src/app/services/map-api.service.ts:44-54 | A truthy `access_token` is cached and resolved. Otherwise the call rejects ("No access token received" for a body without a token) and the cache is unchanged. |
| MapApi.TokenCache | src/app/services/map-api.service.ts:8-60 | `getToken` returns `''` until a successful `fetchToken`. It then returns the received token, and a later failed fetch does not disturb it. |
| MapApi.FetchFieldData | src/app/services/map-api.service.ts:66-77 | The GeoJSON resolves unchanged iff it has a geometry. |
| MapApi.SeasonFieldsOutcome | src/app/services/map-api.service.ts:135-145 | A season-field reply resolves to its first element or null. A transport failure rejects. |
| MapApi.ArrayOutcome | src/app/services/map-api.service.ts:179-189 | A sensor or image reply resolves unchanged iff it is a non-empty array. Otherwise the call rejects. |
| MapApi.FetchSeasonFields | src/app/services/map-api.service.ts:81-145 | With an empty token the call throws and sends nothing. Otherwise it sends the search for the field id and resolves the first record or null. |
| MapApi.FetchSensorInfo | src/app/services/map-api.service.ts:149-190 | With an empty token the call throws before any request. Otherwise it resolves iff the reply is a non-empty array. |
| MapApi.FetchImageData | src/app/services/map-api.service.ts:193-245 | The token is checked first, then the sensor id ("Image sensor ID not available"). A request is sent iff both are non-empty, and it resolves iff the reply is a non-empty array. |
| MapApi.NoTokenNoRequest | src/app/services/map-api.service.ts:82-204 | Before any token arrives, all three authorized calls throw without sending a request. |
| MapApi.SensorIdCheckedAfterToken | src/app/services/map-api.service.ts:198-204 | With a token cached, an empty sensor id throws the sensor-id error. |
| SingleLand.SetFill | src/app/single-land/single-land.component.ts:495-499 | With a polygon only its fill opacity changes, to the given value. Without one nothing changes. |
| SingleLand.RemoveLayer | src/app/single-land/single-land.component.ts:675 | Removing a layer takes off exactly the overlays with that id and keeps all the others. |
| SingleLand.RemoveNdviOverlay | src/app/single-land/single-land.component.ts:673-688 | With `ndviLayer` null nothing changes. Otherwise the referenced overlay leaves the map, every other overlay stays, `ndviLayer` and `imageUrl` are cleared, and the fill returns to 0.3. |
| SingleLand.AddNdviOverlay | src/app/single-land/single-land.component.ts:640-671 | Without a polygon nothing changes. With an empty URL only an error is shown. Otherwise a new overlay at opacity 0.7 is appended after the existing ones, `ndviLayer` points at it, and the polygon fill becomes 0. |
| SingleLand.FetchSensorInfo | src/app/single-land/single-land.component.ts:510-530 | Without a token only an error status is shown and no request is made. Otherwise a catalog request for the selected type is issued. |
| SingleLand.FetchImageData | src/app/single-land/single-land.component.ts:567-605 | The token is checked before the sensor id, and each check issues nothing when it fails. With both present, a missing season record throws. Otherwise the image request carries the sensor id, the season id and the type. |
| SingleLand.MapClick | src/app/single-land/single-land.component.ts:347-365 | A click clears the season record, `showNDVI`, `imageUrl` and `imageData`. It also resets the label, removes the overlay, hides the image-type control and issues the field request. |
| SingleLand.ToggleNdvi | src/app/single-land/single-land.component.ts:481-508 | Without a polygon nothing changes. Otherwise `showNDVI` flips and the label reads "Hide NDVI" iff it is set. Switching on with a token requests the catalog; without one it shows "Authentication token not available" and requests nothing. Switching off removes the overlay, hides the control and sets the fill to 0.3. |
| SingleLand.ImageTypeChanged | src/app/single-land/single-land.component.ts:207-210 | A new image type is stored. With a token the catalog is requested again; without one only the token error is shown. The current overlay is left in place either way. |
| SingleLand.HandleToken | src/app/single-land/single-land.component.ts:85-94 | A truthy `access_token` is stored. Anything else leaves the state unchanged. |
| SingleLand.HandleField | src/app/single-land/single-land.component.ts:366-416 | A GeoJSON with a geometry replaces the polygon (fill 0.3) and shows the NDVI button. It requests the season record iff the feature has a truthy id. A failure only sets the status. |
| SingleLand.HandleSeason | src/app/single-land/single-land.component.ts:466-478 | The season record becomes the first element of a non-empty array, and null otherwise or on failure, whatever was selected since. |
| SingleLand.CatalogImageId | src/app/single-land/single-land.component.ts:537-541 | The sensor id is taken only from a truthy `result[0].image.id`. |
| SingleLand.TypeOptions | src/app/single-land/single-land.component.ts:696-713 | A non-empty maps array replaces the select's options with its map types in order. An empty one leaves them. |
| SingleLand.RecordCatalog | src/app/single-land/single-land.component.ts:533-551 | The catalog reply is recorded. The sensor id changes only when one is present. When `result[0].maps` is an array it becomes `mapsArray`, the options are rebuilt from it and the image-type control is shown. Otherwise those three are unchanged. Nothing else changes. |
| SingleLand.SettleImageCall | src/app/single-land/single-land.component.ts:556-564 | After the image call the loading flag is false. A throw from it becomes the catalog chain's error status. |
| SingleLand.HandleCatalog | src/app/single-land/single-land.component.ts:532-564 | The catalog reply sets `ndviData` and possibly the sensor id, leaves the overlays, polygon, URL and label alone, and always ends with loading false. |
| SingleLand.PngUrl | src/app/single-land/single-land.component.ts:613-627 | A URL is found iff `result[0].maps[0]._links['image:image/png']` exists and is truthy. |
| SingleLand.HandleImage | src/app/single-land/single-land.component.ts:609-637 | The image reply is recorded. `imageUrl` takes the PNG link when present and is otherwise unchanged. Then, given a polygon and a non-empty URL, a new 0.7 overlay with that URL is appended, `ndviLayer` points at it and the fill becomes 0. With an empty URL only the error is shown. A failure only sets the status. |
| SingleLand.Complete | src/app/single-land/single-land.component.ts:85-637 | Answering a request removes it from the in-flight list, keeps the others in order and issues at most one follow-up request. Token, season and image replies issue none, and only a token reply changes the token. |
| SingleLandProperties.RemoveLayerKeepsDistinct | src/app/single-land/single-land.component.ts:675 | Removing a layer keeps the overlay ids distinct. |
| SingleLandProperties.StepInv | src/app/single-land/single-land.component.ts:347-688 | Every event keeps the invariant: overlay ids are distinct and fresh, `ndviLayer` refers to an overlay on the map, `showNDVI` implies a polygon, and the label matches `showNDVI`. |
| SingleLandProperties.ToggleOnThenOff | src/app/single-land/single-land.component.ts:481-507 | Toggling on and straight back off leaves no referenced overlay, fill 0.3, the "Show NDVI" label and the control hidden. |
| SingleLandProperties.OverlaysStack | src/app/single-land/single-land.component.ts:653-656 | Two overlays added in a row are both on the map, and `ndviLayer` refers only to the second. |
| SingleLandProperties.StackedOverlaySurvivesToggleOff | src/app/single-land/single-land.component.ts:488-489 | Toggling off removes only the referenced overlay, and an earlier stacked one stays. |
| SingleLandProperties.RemoveIdempotent | src/app/single-land/single-land.component.ts:673-688 | Removing the overlay a second time changes nothing. |
| SingleLandProperties.ImageReplyWithoutLinkReusesUrl | src/app/single-land/single-land.component.ts:614-630 | An image reply without a PNG link keeps the old URL and lays another overlay with it. |
| SingleLandProperties.ImageReplyWithoutUrlAddsNothing | src/app/single-land/single-land.component.ts:643-647 | With no URL at all the image reply shows an error and creates no layer. |
| SingleLandProperties.NoTokenNoCatalogRequest | src/app/single-land/single-land.component.ts:511-514 | Without a token the NDVI button issues no request and shows the token error. |
| SingleLandProperties.CatalogWithoutImageId | src/app/single-land/single-land.component.ts:573-576 | A catalog reply without an image id, when none was held before, ends in the sensor-id error with no image request. |
| SingleLandProperties.CatalogWithoutSeasonField | src/app/single-land/single-land.component.ts:585-596 | With no season record held, the image call throws and the chain reports "Error loading NDVI data" with no request. |
| SingleLandProperties.CatalogIssuesImageRequest | src/app/single-land/single-land.component.ts:585-596 | A complete catalog reply requests the image for its first entry's id, the held season id and the selected type. |
| SingleLandProperties.ClickLoadsFieldAndSeason | src/app/single-land/single-land.component.ts:366-472 | Scenario: a click loads field "F1", which requests its season record, and the reply (crop Wheat) becomes the held record. |
| SingleLandProperties.StaleSeasonReplyWins | src/app/single-land/single-land.component.ts:467-477 | Scenario: after selecting A then B, season replies that arrive B then A leave A's record held while B is drawn. |
| CreateField.LastMatch | src/app/create-field/create-field.component.ts:131-142 | The chosen layer matches the click (bounds contain it and it has a feature geometry) and no later layer matches. No layer is chosen iff none matches. |
| CreateField.SelectClickedLayer | src/app/create-field/create-field.component.ts:131-142 | The `eachLayer` walk, with each match overwriting the previous one, returns the last matching layer. |
| CreateField.Click | src/app/create-field/create-field.component.ts:127-149 | A hit starts creation for the last matching layer. A miss, or no layers yet, only shows the info status. |
| CreateField.CreateFieldFor | src/app/create-field/create-field.component.ts:219-249 | Creation raises `isCreating` and `isLoading`. The request carries a `point` location with a zero box and the clicked lat/long. |
| CreateField.HandleLoad | src/app/create-field/create-field.component.ts:159-216 | Missing or empty features give an error and draw nothing. A non-empty list is drawn whole and in order, with no mode filter, and the status reports its count. |
| CreateField.LayerOf | src/app/create-field/create-field.component.ts:186-204 | Each drawn layer carries its feature and the load style, and its bounds hold every position of its geometry. |
| CreateField.UpdatePolygonColor | src/app/create-field/create-field.component.ts:269-300 | Without `setStyle` nothing changes. Otherwise the colour and fill colour take the given colour with weight 3 and fill opacity 0.7, and the popup shows the outcome. |
| CreateField.HandleCreate | src/app/create-field/create-field.component.ts:250-266 | Success clears both flags and recolours the layer green. Failure clears only loading, leaves `isCreating` as it was and recolours the layer red. |
| CreateField.RecolourAt | src/app/create-field/create-field.component.ts:255-266 | Only the layer at the given index is restyled, and every other layer stays as it was. |
| CreateField.Complete | src/app/create-field/create-field.component.ts:159-266 | Answering a request removes it from the in-flight list and clears the loading flag. A creation reply restyles only the layer its request named. `isCreating` stays raised iff it was raised and the creation failed. |
| CreateField.StepInv | src/app/create-field/create-field.component.ts:127-266 | Every event keeps the invariant: the load is in flight at most once and only before anything is drawn, and every creation request names a drawn layer. |
| CreateField.CreateReplyRecoloursRequestedLayer | src/app/create-field/create-field.component.ts:250-266 | In a reachable state a creation reply always finds the layer its request named and recolours it. |
| CreateField.CreatingFallsOnlyOnSuccess | src/app/create-field/create-field.component.ts:250-266 | `isCreating` falls only on a successful creation reply. |
| CreateField.MissedClickSendsNothing | src/app/create-field/create-field.component.ts:144-148 | A click that hits no field sends no request and leaves the flags alone. |
| CreateField.CreateSucceeds | src/app/create-field/create-field.component.ts:251-257 | Click then success: the flags drop and that field alone turns `#22c55e` with "Field Created". |
| CreateField.CreateFailsKeepsCreating | src/app/create-field/create-field.component.ts:259-266 | Click then failure: `isCreating` stays raised and the field turns `#ef4444` with "Creation Failed". |
| CreateField.ClickOnVertexSelectsSomeField | src/app/create-field/create-field.component.ts:133-140 | A click on any vertex of a drawn field selects some field. |
| Geo.Envelope | src/app/create-field/create-field.component.ts:135 | A layer's bounds exist iff it has positions. They hold every position, and each side is attained by some position. |

## Left out

- Leaflet map, control and tile-layer construction, CSS, and the HTML of popups. These are presentation. A popup is modelled only by its status text ("Field Created" / "Creation Failed").
- `fetch` transport, URLs, credentials, headers and request bodies. A reply is an abstract value: a transport or JSON-parse failure, or a received body.
- The `setTimeout` status auto-dismissal, `invalidateSize`, and the overlay z-index timer. These are timers with cosmetic effects only.
- The `readableArea` patch. It is floating-point formatting.
- The three-month date window of the gateway's catalog query. It depends on the clock and on JavaScript `Date` month overflow.
- Leaflet's `getBounds`. It is modelled as the envelope of the geometry's positions (`Geo.Envelope`), and `contains` as the closed-rectangle test. A layer with no positions is treated as containing nothing.
- JavaScript's loose typing of replies. Reply fields are typed records with optional members. A `null` reply body is treated like a body without the member in question. Non-string ids and non-array `maps` are folded into "missing". Positions are always two numbers.
- `SingleLand.HandleField`: the GeoJSON is assumed drawable. An exception from `L.geoJSON` on malformed geometry is not modelled.
- `CreateField.HandleLoad`: only one load request is ever issued, so the removal of a previous polygons layer, which never has anything to remove, is not modelled.
- The selected option of the image-type select and the `sowingDate`/`fieldInfo` constants of the creation payload. The first is a DOM detail and the date comes from the clock.
- The gateway service is modelled on its own. The components issue their own requests and do not call it.
- `app.routes.ts`: static router configuration.
- Geo.Geometry: `OtherGeometry` stands for every geometry type other than Polygon and MultiPolygon. Its type name is not constrained, and it carries no coordinates, so such geometries have no extent in the model. A LineString or MultiPoint layer in the create-field view therefore has no bounds and is never selected by a click.
