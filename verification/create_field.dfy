/** The create-field view: on load the fields of a fixed box are drawn (no
    mode filter); a map click picks the drawn field under the point and asks
    the backend to create a field there; the outcome recolours that polygon
    and binds a status popup to it. */
module CreateField {
  import opened Common
  import opened Geo

  /** The part of a Leaflet path style the view sets. `fillColor` is unset in
      the initial style (Leaflet then fills with `color`). */
  datatype Style = Style(color: string, weight: nat, fillOpacity: real, fillColor: Option<string>)

  const LoadStyle := Style("#71a3c1", 2, 0.5, None)
  const SuccessColor := "#22c55e"
  const FailureColor := "#ef4444"

  /** One layer of the polygons layer, as the click handler sees it: its
      `feature`, its `getBounds()` (missing when the layer has none), whether
      it has `setStyle`, and the style and popup text it currently shows. */
  datatype FieldLayer = FieldLayer(
    feature: Option<Feature>,
    bounds: Option<Bbox>,
    styleable: bool,
    style: Style,
    popup: string)

  /** `layer.getBounds && layer.getBounds().contains(e.latlng)` and
      `layer.feature && layer.feature.geometry`. */
  predicate Matches(l: FieldLayer, p: Position)
  {
    l.bounds.Some? && Inside(p, l.bounds.value) && l.feature.Some? && l.feature.value.geometry.Some?
  }

  /** The index of the last layer matching `p`, searching from the end. */
  function LastMatch(layers: seq<FieldLayer>, p: Position): (r: Option<nat>)
    ensures r.Some? ==> r.value < |layers| && Matches(layers[r.value], p)
    ensures r.Some? ==> forall j :: r.value < j < |layers| ==> !Matches(layers[j], p)
    ensures r.None? <==> forall j :: 0 <= j < |layers| ==> !Matches(layers[j], p)
    decreases |layers|
  {
    if |layers| == 0 then None
    else if Matches(layers[|layers| - 1], p) then Some(|layers| - 1)
    else LastMatch(layers[..|layers| - 1], p)
  }

  /** The click handler's `eachLayer` walk: every matching layer overwrites
      `clickedLayer`, so the last match in iteration order wins. */
  method SelectClickedLayer(layers: seq<FieldLayer>, p: Position) returns (clicked: Option<nat>)
    ensures clicked.Some? ==> clicked.value < |layers| && Matches(layers[clicked.value], p)
    ensures clicked.Some? ==> forall j :: clicked.value < j < |layers| ==> !Matches(layers[j], p)
    ensures clicked.None? <==> forall j :: 0 <= j < |layers| ==> !Matches(layers[j], p)
    ensures clicked == LastMatch(layers, p)
  {
    clicked := None;
    var k := 0;
    while k < |layers|
      invariant 0 <= k <= |layers|
      invariant clicked.Some? ==> clicked.value < k && Matches(layers[clicked.value], p)
      invariant clicked.Some? ==> forall j :: clicked.value < j < k ==> !Matches(layers[j], p)
      invariant clicked.None? ==> forall j :: 0 <= j < k ==> !Matches(layers[j], p)
    {
      if Matches(layers[k], p) {
        clicked := Some(k);
      }
      k := k + 1;
    }
    LastMatchUnique(layers, p, clicked);
  }

  /** The last match is determined by its characterisation. */
  lemma LastMatchUnique(layers: seq<FieldLayer>, p: Position, c: Option<nat>)
    requires c.Some? ==> c.value < |layers| && Matches(layers[c.value], p)
    requires c.Some? ==> forall j :: c.value < j < |layers| ==> !Matches(layers[j], p)
    requires c.None? <==> forall j :: 0 <= j < |layers| ==> !Matches(layers[j], p)
    ensures c == LastMatch(layers, p)
  {
    var m := LastMatch(layers, p);
    if c.Some? {
      assert Matches(layers[c.value], p);
      assert m.Some? && Matches(layers[m.value], p);
    }
  }

  // ---------------------------------------------------------------------------
  // The component's state and events.

  /** The `geoLocation` part of the creation payload. */
  datatype GeoLocation = GeoLocation(kind: string, minLong: real, maxLong: real, minLat: real, maxLat: real,
                                     lat: real, long: real)

  datatype Request = LoadFields | CreateRequest(layer: nat, location: GeoLocation)

  /** A creation reply: `ok` is false when the request failed or its body was
      not JSON; any HTTP status with a JSON body counts as success. */
  datatype Completion = LoadDone(reply: Reply<FeaturesField>) | CreateDone(ok: bool)

  predicate Answers(c: Completion, q: Request)
  {
    match q
    case LoadFields => c.LoadDone?
    case CreateRequest(_, _) => c.CreateDone?
  }

  datatype State = State(
    /** The layers of `polygonsLayer`, once drawn. */
    layers: Option<seq<FieldLayer>>,
    loading: bool,
    status: Status,
    isCreating: bool,
    pending: seq<Request>)

  const FetchingMessage := "Fetching fields in selected area..."

  /** After `ngAfterViewInit`: the fixed-box load is in flight. */
  function Init(): State
  {
    State(None, true, Status(FetchingMessage, Info), false, [LoadFields])
  }

  /** One drawn layer per feature, bounded by the envelope of its positions. */
  function LayerOf(f: Feature): (l: FieldLayer)
    ensures l.feature == Some(f) && l.styleable && l.style == LoadStyle && l.popup == ""
    ensures f.geometry.Some? && |Positions(f.geometry.value)| > 0 ==>
              l.bounds.Some? && forall i :: 0 <= i < |Positions(f.geometry.value)| ==> Inside(Positions(f.geometry.value)[i], l.bounds.value)
  {
    FieldLayer(Some(f), if f.geometry.Some? then Envelope(Positions(f.geometry.value)) else None, true, LoadStyle, "")
  }

  function DrawLayers(fs: seq<Feature>): (r: seq<FieldLayer>)
    ensures |r| == |fs| && forall i :: 0 <= i < |fs| ==> r[i] == LayerOf(fs[i])
  {
    seq(|fs|, i requires 0 <= i < |fs| => LayerOf(fs[i]))
  }

  function FoundMessage(count: nat): string
  {
    "Found " + Decimal(count) + " fields in selected area"
  }

  /** The initial load's reply: missing or empty features draw nothing; any
      non-empty list is drawn whole, in order, with no mode filter. */
  function HandleLoad(s: State, reply: Reply<FeaturesField>): (r: State)
    ensures !r.loading && r.pending == s.pending && r.isCreating == s.isCreating
    ensures reply.TransportFailed? ==> r.layers == s.layers && r.status == Status("Error loading field data", Error)
    ensures reply.Received? && NoFeatures(reply.body) ==>
              r.layers == s.layers && r.status == Status("No fields found in selected area", Error)
    ensures reply.Received? && !NoFeatures(reply.body) ==>
              && r.layers.Some?
              && |r.layers.value| == |reply.body.items|
              && (forall i :: 0 <= i < |reply.body.items| ==> r.layers.value[i].feature == Some(reply.body.items[i]))
              && r.status == Status(FoundMessage(|reply.body.items|), Success)
  {
    match reply
    case TransportFailed(_) => s.(status := Status("Error loading field data", Error), loading := false)
    case Received(ff) =>
      if NoFeatures(ff) then s.(status := Status("No fields found in selected area", Error), loading := false)
      else s.(layers := Some(DrawLayers(ff.items)),
              status := Status(FoundMessage(|ff.items|), Success), loading := false)
  }

  /** `createField(lng, lat, layer)`: both flags raised and the request sent
      with a point location and a zero box. */
  function CreateFieldFor(s: State, lng: real, lat: real, layer: nat): (r: State)
    ensures r.isCreating && r.loading && r.status == Status("Creating field...", Info)
    ensures r.pending == s.pending + [CreateRequest(layer, GeoLocation("point", 0.0, 0.0, 0.0, 0.0, lat, lng))]
    ensures r.layers == s.layers
  {
    s.(isCreating := true, loading := true, status := Status("Creating field...", Info),
       pending := s.pending + [CreateRequest(layer, GeoLocation("point", 0.0, 0.0, 0.0, 0.0, lat, lng))])
  }

  /** The map click handler. */
  function Click(s: State, lng: real, lat: real): (r: State)
    ensures s.layers.None? ==> r == s.(status := Status("Please click on an existing field polygon", Info))
    ensures s.layers.Some? ==>
              var hit := LastMatch(s.layers.value, Position(lng, lat));
              if hit.Some? then r == CreateFieldFor(s, lng, lat, hit.value)
              else r == s.(status := Status("Please click on an existing field polygon", Info))
  {
    var hit := if s.layers.Some? then LastMatch(s.layers.value, Position(lng, lat)) else None;
    if hit.Some? then CreateFieldFor(s, lng, lat, hit.value)
    else s.(status := Status("Please click on an existing field polygon", Info))
  }

  /** `updatePolygonColor`: without `setStyle` nothing changes; otherwise the
      outline and fill take the colour, weight 3, fill opacity 0.7, and the
      popup shows the outcome. */
  function UpdatePolygonColor(l: FieldLayer, color: string, success: bool): (r: FieldLayer)
    ensures !l.styleable ==> r == l
    ensures l.styleable ==> r.style == Style(color, 3, 0.7, Some(color))
    ensures l.styleable ==> r.popup == if success then "Field Created" else "Creation Failed"
    ensures r.feature == l.feature && r.bounds == l.bounds && r.styleable == l.styleable
  {
    if !l.styleable then l
    else l.(style := Style(color, 3, 0.7, Some(color)), popup := if success then "Field Created" else "Creation Failed")
  }

  /** Recolour the layer at `index`, leaving every other layer alone. */
  function RecolourAt(layers: Option<seq<FieldLayer>>, index: nat, color: string, success: bool): (r: Option<seq<FieldLayer>>)
    ensures layers.None? ==> r.None?
    ensures layers.Some? ==> r.Some? && |r.value| == |layers.value|
    ensures layers.Some? ==> forall j :: 0 <= j < |layers.value| && j != index ==> r.value[j] == layers.value[j]
    ensures layers.Some? && index < |layers.value| ==> r.value[index] == UpdatePolygonColor(layers.value[index], color, success)
  {
    if layers.Some? && index < |layers.value| then
      Some(layers.value[index := UpdatePolygonColor(layers.value[index], color, success)])
    else layers
  }

  /** The creation reply for the layer at `index`. On failure `isCreating`
      stays raised. */
  function HandleCreate(s: State, index: nat, ok: bool): (r: State)
    ensures !r.loading && r.pending == s.pending
    ensures ok ==> !r.isCreating && r.status == Status("Field created successfully!", Success)
    ensures !ok ==> r.isCreating == s.isCreating && r.status == Status("Error creating field", Error)
    ensures r.layers == RecolourAt(s.layers, index, if ok then SuccessColor else FailureColor, ok)
  {
    if ok then
      s.(isCreating := false, loading := false, status := Status("Field created successfully!", Success),
         layers := RecolourAt(s.layers, index, SuccessColor, true))
    else
      s.(loading := false, status := Status("Error creating field", Error),
         layers := RecolourAt(s.layers, index, FailureColor, false))
  }

  function Complete(s: State, i: nat, c: Completion): (r: State)
    requires i < |s.pending| && Answers(c, s.pending[i])
    ensures r.pending == RemoveAt(s.pending, i) && !r.loading
    // a creation reply restyles only the layer its request was issued for
    ensures c.CreateDone? && s.layers.Some? ==>
              r.layers.Some? && |r.layers.value| == |s.layers.value|
              && forall j :: 0 <= j < |s.layers.value| && j != s.pending[i].layer ==> r.layers.value[j] == s.layers.value[j]
    ensures c.CreateDone? ==> (r.isCreating <==> s.isCreating && !c.ok)
  {
    var s' := s.(pending := RemoveAt(s.pending, i));
    match c
    case LoadDone(reply) => HandleLoad(s', reply)
    case CreateDone(ok) => HandleCreate(s', s.pending[i].layer, ok)
  }

  datatype Event = MapClicked(lng: real, lat: real) | Completed(index: nat, completion: Completion)

  predicate Enabled(s: State, e: Event)
  {
    e.Completed? ==> e.index < |s.pending| && Answers(e.completion, s.pending[e.index])
  }

  function Step(s: State, e: Event): State
    requires Enabled(s, e)
  {
    match e
    case MapClicked(lng, lat) => Click(s, lng, lat)
    case Completed(i, c) => Complete(s, i, c)
  }

  // ---------------------------------------------------------------------------
  // Properties.

  /** A click that hits no drawn field sends no creation request and leaves
      the flags alone. */
  lemma MissedClickSendsNothing(s: State, lng: real, lat: real)
    requires s.layers.None? || LastMatch(s.layers.value, Position(lng, lat)).None?
    ensures var r := Click(s, lng, lat);
            r.pending == s.pending && r.isCreating == s.isCreating && r.loading == s.loading
            && r.status == Status("Please click on an existing field polygon", Info)
  {
  }

  /** A click on a drawn field, then a successful reply: the flags drop and
      that field, and only it, turns green with the "Field Created" popup. */
  lemma CreateSucceeds(s: State, lng: real, lat: real)
    requires s.layers.Some? && LastMatch(s.layers.value, Position(lng, lat)).Some?
    ensures var k := LastMatch(s.layers.value, Position(lng, lat)).value;
            var c := Click(s, lng, lat);
            var r := Complete(c, |s.pending|, CreateDone(true));
            && c.isCreating && c.loading
            && !r.isCreating && !r.loading
            && r.status == Status("Field created successfully!", Success)
            && (s.layers.value[k].styleable ==>
                  r.layers.value[k].style == Style(SuccessColor, 3, 0.7, Some(SuccessColor))
                  && r.layers.value[k].popup == "Field Created")
            && (forall j :: 0 <= j < |s.layers.value| && j != k ==> r.layers.value[j] == s.layers.value[j])
            && r.pending == s.pending
  {
    var k := LastMatch(s.layers.value, Position(lng, lat)).value;
    var c := Click(s, lng, lat);
    assert c.pending[|s.pending|] == CreateRequest(k, GeoLocation("point", 0.0, 0.0, 0.0, 0.0, lat, lng));
    assert RemoveAt(c.pending, |s.pending|) == s.pending;
  }

  /** A failed reply turns the field red with "Creation Failed" but leaves
      `isCreating` raised. */
  lemma CreateFailsKeepsCreating(s: State, lng: real, lat: real)
    requires s.layers.Some? && LastMatch(s.layers.value, Position(lng, lat)).Some?
    ensures var k := LastMatch(s.layers.value, Position(lng, lat)).value;
            var r := Complete(Click(s, lng, lat), |s.pending|, CreateDone(false));
            && r.isCreating && !r.loading
            && r.status == Status("Error creating field", Error)
            && (s.layers.value[k].styleable ==>
                  r.layers.value[k].style == Style(FailureColor, 3, 0.7, Some(FailureColor))
                  && r.layers.value[k].popup == "Creation Failed")
  {
    var k := LastMatch(s.layers.value, Position(lng, lat)).value;
    var c := Click(s, lng, lat);
    assert c.pending[|s.pending|] == CreateRequest(k, GeoLocation("point", 0.0, 0.0, 0.0, 0.0, lat, lng));
    assert RemoveAt(c.pending, |s.pending|) == s.pending;
  }

  /** A drawn field whose geometry has a position is hit by a click on any of
      its vertices (the layer's bounds hold all of them). */
  lemma ClickOnVertexSelectsSomeField(fs: seq<Feature>, k: nat, i: nat)
    requires k < |fs| && fs[k].geometry.Some? && i < |Positions(fs[k].geometry.value)|
    ensures LastMatch(DrawLayers(fs), Positions(fs[k].geometry.value)[i]).Some?
  {
    var layers := DrawLayers(fs);
    assert Matches(layers[k], Positions(fs[k].geometry.value)[i]);
  }

  // ---------------------------------------------------------------------------
  // What every reachable state satisfies.

  /** The load is in flight at most once and only before anything is drawn;
      every creation request names a drawn layer. */
  predicate Inv(s: State)
  {
    && (forall j, k :: 0 <= j < k < |s.pending| ==> !(s.pending[j].LoadFields? && s.pending[k].LoadFields?))
    && (forall j :: 0 <= j < |s.pending| && s.pending[j].LoadFields? ==> s.layers.None?)
    && (forall j :: 0 <= j < |s.pending| && s.pending[j].CreateRequest? ==>
          s.layers.Some? && s.pending[j].layer < |s.layers.value|)
  }

  lemma InitInv()
    ensures Inv(Init())
  {
  }

  /** Every event keeps the invariant. */
  lemma StepInv(s: State, e: Event)
    requires Inv(s) && Enabled(s, e)
    ensures Inv(Step(s, e))
  {
  }

  /** In a reachable state a creation reply always restyles the field that was
      clicked: the layer its request names exists and is recoloured. */
  lemma CreateReplyRecoloursRequestedLayer(s: State, i: nat, ok: bool)
    requires Inv(s) && i < |s.pending| && s.pending[i].CreateRequest?
    ensures var r := Complete(s, i, CreateDone(ok));
            var k := s.pending[i].layer;
            && r.layers.Some? && k < |r.layers.value|
            && r.layers.value[k] == UpdatePolygonColor(s.layers.value[k], if ok then SuccessColor else FailureColor, ok)
  {
  }

  /** `isCreating` only ever falls on a successful creation reply. */
  lemma CreatingFallsOnlyOnSuccess(s: State, e: Event)
    requires Enabled(s, e) && s.isCreating && !Step(s, e).isCreating
    ensures e.Completed? && e.completion == CreateDone(true)
  {
  }
}
