/** The bounding-box view: the user draws a rectangle, the fields inside it are
    fetched, filtered by the current mode and drawn as one polygons layer.

    Each fetch is an in-flight request remembered with the box it was issued
    for; its reply is a separate event that may arrive in any order. The box is
    captured when the request is issued, but the mode is read when the reply
    is handled. */
module BboxView {
  import opened Common
  import opened Geo
  import opened BboxFilter

  /** What `draw:created` delivers: a rectangle with its south-west and
      north-east corners, or any other drawn layer. */
  datatype DrawnShape = Rectangle(southWest: Position, northEast: Position) | OtherShape

  datatype State = State(
    mode: Mode,
    lastBbox: Option<Bbox>,
    /** The rectangle currently shown among the drawn items. */
    rectangle: Option<DrawnShape>,
    /** The features of the polygons layer currently on the map. */
    drawn: Option<seq<Feature>>,
    loading: bool,
    status: Status,
    /** Boxes of the bbox fetches still in flight. */
    pending: seq<Bbox>)

  function Init(): State
  {
    State(Exclusive, None, None, None, false, InitialStatus, [])
  }

  const FetchingMessage := "Fetching fields in selected area..."
  const NoFieldsMessage := "No fields found in selected area"
  const NoMatchMessage := "No fields match the current filter criteria"
  const LoadErrorMessage := "Error loading field data"

  function FoundMessage(count: nat): string
  {
    "Found " + Decimal(count) + " fields in selected area"
  }

  /** Issuing `fetchFieldsForBbox`: the loading flag, the info status and one
      more request in flight for exactly this box. */
  function FetchFields(s: State, b: Bbox): (r: State)
    ensures r.pending == s.pending + [b]
    ensures r.loading && r.status == Status(FetchingMessage, Info)
    ensures r.drawn == s.drawn && r.mode == s.mode && r.lastBbox == s.lastBbox
  {
    s.(loading := true, status := Status(FetchingMessage, Info), pending := s.pending + [b])
  }

  /** The box stored from a drawn rectangle: `[sw.lng, sw.lat, ne.lng, ne.lat]`. */
  function CornersBox(southWest: Position, northEast: Position): Bbox
  {
    Bbox(southWest.lng, southWest.lat, northEast.lng, northEast.lat)
  }

  /** `draw:created`: the previous rectangle leaves the drawn items; a new
      rectangle is stored, its box remembered and its fields fetched; any
      other shape changes nothing else. */
  function DrawCreated(s: State, shape: DrawnShape): (r: State)
    ensures shape.OtherShape? ==> r == s.(rectangle := None)
    ensures shape.Rectangle? ==>
              var b := Bbox(shape.southWest.lng, shape.southWest.lat, shape.northEast.lng, shape.northEast.lat);
              && r.rectangle == Some(shape)
              && r.lastBbox == Some(b)
              && r.pending == s.pending + [b]
              && r.drawn == s.drawn
  {
    match shape
    case OtherShape => s.(rectangle := None)
    case Rectangle(sw, ne) =>
      var b := CornersBox(sw, ne);
      FetchFields(s.(rectangle := Some(shape), lastBbox := Some(b)), b)
  }

  /** `onBboxModeChange`: without a stored box nothing happens; otherwise the
      stored box is fetched again. */
  function OnModeChange(s: State): (r: State)
    ensures s.lastBbox.None? ==> r == s
    ensures s.lastBbox.Some? ==> r.pending == s.pending + [s.lastBbox.value] && r.loading
    ensures r.drawn == s.drawn && r.mode == s.mode && r.lastBbox == s.lastBbox
  {
    if s.lastBbox.Some? then FetchFields(s, s.lastBbox.value) else s
  }

  /** The mode radio's `change` handler: store the mode, then `onBboxModeChange`. */
  function ModeSelected(s: State, m: Mode): (r: State)
    ensures r.mode == m
    ensures s.lastBbox.None? ==> r == s.(mode := m)
  {
    OnModeChange(s.(mode := m))
  }

  /** The `.then`/`.catch` of `fetchFieldsForBbox` for a request issued with box `b`. */
  function HandleFields(s: State, b: Bbox, reply: Reply<FeaturesField>): (r: State)
    ensures !r.loading && r.pending == s.pending && r.mode == s.mode && r.lastBbox == s.lastBbox
    // a transport or parse failure skips the `.then`: the old layer stays
    ensures reply.TransportFailed? ==> r.drawn == s.drawn && r.status == Status(LoadErrorMessage, Error)
    // a received body first removes the previous polygons layer
    ensures reply.Received? && NoFeatures(reply.body) ==>
              r.drawn.None? && r.status == Status(NoFieldsMessage, Error)
    ensures reply.Received? && !NoFeatures(reply.body) ==>
              match Select(s.mode, reply.body.items, b)
              case Err(_) => r.drawn.None? && r.status == Status(LoadErrorMessage, Error)
              case Ok(kept) =>
                if |kept| == 0 then r.drawn.None? && r.status == Status(NoMatchMessage, Error)
                else r.drawn == Some(kept) && r.status == Status(FoundMessage(|kept|), Success)
  {
    match reply
    case TransportFailed(_) =>
      s.(status := Status(LoadErrorMessage, Error), loading := false)
    case Received(ff) =>
      var cleared := s.(drawn := None);
      if NoFeatures(ff) then
        cleared.(status := Status(NoFieldsMessage, Error), loading := false)
      else
        match Select(s.mode, ff.items, b)
        case Err(_) =>
          cleared.(status := Status(LoadErrorMessage, Error), loading := false)
        case Ok(kept) =>
          if |kept| == 0 then
            cleared.(status := Status(NoMatchMessage, Error), loading := false)
          else
            cleared.(drawn := Some(kept), status := Status(FoundMessage(|kept|), Success), loading := false)
  }

  /** The reply to in-flight request `i` arrives. */
  function FieldsArrived(s: State, i: nat, reply: Reply<FeaturesField>): (r: State)
    requires i < |s.pending|
    ensures r.pending == RemoveAt(s.pending, i)
    ensures !r.loading && r.mode == s.mode && r.lastBbox == s.lastBbox
    // the filter uses the box this request was issued for, not the latest box
    ensures r.drawn.Some? && r.drawn != s.drawn && s.mode == Inclusive ==>
              forall k :: 0 <= k < |r.drawn.value| ==> Keep(r.drawn.value[k], s.pending[i]) == Ok(true)
    ensures r.drawn.Some? && r.drawn != s.drawn && s.mode == Exclusive ==>
              reply.Received? && reply.body.FeatureList? && r.drawn == Some(reply.body.items)
  {
    HandleFields(s.(pending := RemoveAt(s.pending, i)), s.pending[i], reply)
  }

  /** The draw control's edit toolbar resizes the shown rectangle in place.
      The component registers no handler for this, so `lastBbox` keeps the
      box the rectangle was drawn with. */
  function Edited(s: State, southWest: Position, northEast: Position): (r: State)
    ensures s.rectangle.Some? ==> r.rectangle == Some(Rectangle(southWest, northEast))
    ensures s.rectangle.None? ==> r == s
    ensures r.lastBbox == s.lastBbox && r.pending == s.pending && r.drawn == s.drawn && r.mode == s.mode
  {
    if s.rectangle.Some? then s.(rectangle := Some(Rectangle(southWest, northEast))) else s
  }

  /** The toolbar's delete removes the rectangle from the drawn items; with no
      handler registered, `lastBbox` and the drawn fields stay. */
  function Deleted(s: State): (r: State)
    ensures r.rectangle.None?
    ensures r.lastBbox == s.lastBbox && r.pending == s.pending && r.drawn == s.drawn && r.mode == s.mode
  {
    s.(rectangle := None)
  }

  datatype Event =
    | Drawn(shape: DrawnShape)
    | RectangleEdited(southWest: Position, northEast: Position)
    | RectangleDeleted
    | ModeRadio(mode: Mode)
    | FieldsReply(index: nat, reply: Reply<FeaturesField>)

  /** A reply can only arrive for a request that is in flight. */
  predicate Enabled(s: State, e: Event)
  {
    e.FieldsReply? ==> e.index < |s.pending|
  }

  function Step(s: State, e: Event): State
    requires Enabled(s, e)
  {
    match e
    case Drawn(shape) => DrawCreated(s, shape)
    case RectangleEdited(sw, ne) => Edited(s, sw, ne)
    case RectangleDeleted => Deleted(s)
    case ModeRadio(m) => ModeSelected(s, m)
    case FieldsReply(i, reply) => FieldsArrived(s, i, reply)
  }

  // ---------------------------------------------------------------------------
  // Properties of the view.

  /** In exclusive mode a non-empty list is drawn exactly as fetched: same
      features, same order, same count, and the status reports that count. */
  lemma ExclusiveDrawsAllFeatures(s: State, b: Bbox, fs: seq<Feature>)
    requires s.mode == Exclusive && |fs| > 0
    ensures HandleFields(s, b, Received(FeatureList(fs))).drawn == Some(fs)
    ensures HandleFields(s, b, Received(FeatureList(fs))).status == Status(FoundMessage(|fs|), Success)
  {
  }

  /** In inclusive mode whatever is drawn is an order-preserving sub-list of
      the fetched features, each of which passed the filter. */
  lemma InclusiveDrawsKeptFeatures(s: State, b: Bbox, fs: seq<Feature>)
    requires s.mode == Inclusive
    ensures var r := HandleFields(s, b, Received(FeatureList(fs)));
            r.drawn.Some? ==>
              && Subsequence(r.drawn.value, fs)
              && (forall k :: 0 <= k < |r.drawn.value| ==> Keep(r.drawn.value[k], b) == Ok(true))
              && r.status == Status(FoundMessage(|r.drawn.value|), Success)
  {
  }

  /** Whenever a reply arrives with a body, the layer drawn before it is gone
      unless the new one replaces it; nothing is drawn on any error status. */
  lemma ErrorStatusMeansNothingDrawn(s: State, b: Bbox, reply: Reply<FeaturesField>)
    requires reply.Received?
    ensures var r := HandleFields(s, b, reply);
            r.status.kind == Error <==> r.drawn.None?
  {
    var r := HandleFields(s, b, reply);
    if !NoFeatures(reply.body) {
      match Select(s.mode, reply.body.items, b)
      case Err(_) =>
      case Ok(kept) =>
    }
  }

  /** Toggling the mode after a rectangle was drawn re-fetches that rectangle's
      box, and the reply is filtered with the new mode. */
  lemma ModeChangeRefetchesLastBox(s: State, sw: Position, ne: Position, m: Mode)
    ensures var r := ModeSelected(DrawCreated(s, Rectangle(sw, ne)), m);
            && r.mode == m
            && |r.pending| == |s.pending| + 2
            && r.pending[|r.pending| - 1] == Bbox(sw.lng, sw.lat, ne.lng, ne.lat)
  {
  }

  /** A mode change with no rectangle ever drawn issues no request. */
  lemma ModeChangeWithoutBoxIssuesNothing(m: Mode)
    ensures ModeSelected(Init(), m).pending == []
    ensures ModeSelected(Init(), m).status == InitialStatus
  {
  }

  // ---------------------------------------------------------------------------
  // What every reachable state satisfies.

  /** Nothing is in flight, drawn or shown before a box is stored; only a
      rectangle is ever shown; a polygons layer is never empty. (The shown
      rectangle need not match the stored box: see `ModeChangeAfterEditUsesStaleBox`.) */
  predicate Inv(s: State)
  {
    && (s.lastBbox.None? ==> |s.pending| == 0 && s.drawn.None? && s.rectangle.None?)
    && (s.rectangle.Some? ==> s.rectangle.value.Rectangle?)
    && (s.drawn.Some? ==> |s.drawn.value| > 0)
  }

  lemma InitInv()
    ensures Inv(Init())
  {
  }

  /** Every event keeps the invariant. */
  lemma StepInv(s: State, e: Event)
    requires Inv(s) && Enabled(s, e)
    ensures Inv(Step(s, e))
  {
  }

  /** After the rectangle is resized with the edit toolbar, a mode change
      re-fetches the box it was first drawn with, not the one now shown. */
  lemma ModeChangeAfterEditUsesStaleBox(s: State, sw1: Position, ne1: Position, sw2: Position, ne2: Position, m: Mode)
    ensures var edited := Edited(DrawCreated(s, Rectangle(sw1, ne1)), sw2, ne2);
            var r := ModeSelected(edited, m);
            && edited.rectangle == Some(Rectangle(sw2, ne2))
            && r.lastBbox == Some(CornersBox(sw1, ne1))
            && r.pending == s.pending + [CornersBox(sw1, ne1), CornersBox(sw1, ne1)]
  {
  }

  /** After the rectangle is deleted, a mode change still re-fetches its box. */
  lemma ModeChangeAfterDeleteRefetches(s: State, sw: Position, ne: Position, m: Mode)
    ensures var deleted := Deleted(DrawCreated(s, Rectangle(sw, ne)));
            var r := ModeSelected(deleted, m);
            && deleted.rectangle.None?
            && r.pending == s.pending + [CornersBox(sw, ne), CornersBox(sw, ne)]
  {
  }
}
