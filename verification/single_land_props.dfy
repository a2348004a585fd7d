/** Properties of the single-field view: an invariant every event preserves,
    the toggle and overlay laws, the request guards, and two scenarios run
    through the event function (the flow the view is built for, and a stale
    season-field reply overwriting the current one). */
module SingleLandProperties {
  import opened Common
  import opened Geo
  import opened SingleLand

  // ---------------------------------------------------------------------------
  // The invariant.

  ghost predicate DistinctIds(overlays: seq<Overlay>)
  {
    forall i, j :: 0 <= i < j < |overlays| ==> overlays[i].id != overlays[j].id
  }

  ghost predicate IdsBelow(overlays: seq<Overlay>, bound: nat)
  {
    forall i :: 0 <= i < |overlays| ==> overlays[i].id < bound
  }

  /** Overlay ids are distinct and fresh ids are above all of them; the
      overlay the component refers to is on the map; NDVI is only shown with a
      polygon; the button always reads according to `showNDVI`. */
  ghost predicate Inv(s: State)
  {
    && DistinctIds(s.overlays)
    && IdsBelow(s.overlays, s.nextLayerId)
    && (s.ndviLayer.Some? ==> OnMap(s.overlays, s.ndviLayer.value))
    && (s.showNdvi ==> s.polygon.Some?)
    && s.buttonLabel == LabelFor(s.showNdvi)
  }

  lemma InitInv()
    ensures Inv(Init())
  {
  }

  /** Removing a layer keeps the overlay ids distinct. */
  lemma {:induction false} RemoveLayerKeepsDistinct(overlays: seq<Overlay>, id: nat)
    requires DistinctIds(overlays)
    ensures DistinctIds(RemoveLayer(overlays, id))
    decreases |overlays|
  {
    if |overlays| > 0 {
      var tail := overlays[1..];
      assert DistinctIds(tail) by {
        forall i, j | 0 <= i < j < |tail| ensures tail[i].id != tail[j].id {
          assert tail[i] == overlays[i + 1] && tail[j] == overlays[j + 1];
        }
      }
      RemoveLayerKeepsDistinct(tail, id);
      var rest := RemoveLayer(tail, id);
      if overlays[0].id != id {
        var r := [overlays[0]] + rest;
        forall i, j | 0 <= i < j < |r| ensures r[i].id != r[j].id {
          if i == 0 {
            assert r[j] in rest;
            assert r[j] in tail;
            var k :| 0 <= k < |tail| && tail[k] == r[j];
            assert overlays[k + 1] == r[j];
          } else {
            assert r[i] == rest[i - 1] && r[j] == rest[j - 1];
          }
        }
      }
    }
  }

  lemma RemoveNdviOverlayInv(s: State)
    requires DistinctIds(s.overlays) && IdsBelow(s.overlays, s.nextLayerId)
    ensures var r := RemoveNdviOverlay(s);
            DistinctIds(r.overlays) && IdsBelow(r.overlays, r.nextLayerId) && r.ndviLayer.None?
  {
    if s.ndviLayer.Some? {
      RemoveLayerKeepsDistinct(s.overlays, s.ndviLayer.value);
      var r := RemoveNdviOverlay(s);
      forall i | 0 <= i < |r.overlays| ensures r.overlays[i].id < r.nextLayerId {
        assert r.overlays[i] in s.overlays;
      }
    }
  }

  lemma AddNdviOverlayInv(s: State)
    requires Inv(s)
    ensures Inv(AddNdviOverlay(s))
  {
    var r := AddNdviOverlay(s);
    if s.polygon.Some? && s.imageUrl != "" {
      assert r.overlays[|s.overlays|].id == s.nextLayerId;
    }
  }

  lemma MapClickInv(s: State, lng: real, lat: real)
    requires Inv(s)
    ensures Inv(MapClick(s, lng, lat))
  {
    var reset := s.(seasonFieldInfo := None, showNdvi := false, imageUrl := "", imageData := None,
                    buttonLabel := ShowLabel);
    RemoveNdviOverlayInv(reset);
  }

  lemma ToggleNdviInv(s: State)
    requires Inv(s)
    ensures Inv(ToggleNdvi(s))
  {
    if s.polygon.Some? && s.showNdvi {
      RemoveNdviOverlayInv(s.(showNdvi := false));
    }
  }

  lemma HandleImageInv(s: State, reply: Reply<ArrayBody<ImageResult>>)
    requires Inv(s)
    ensures Inv(HandleImage(s, reply))
  {
    if reply.Received? {
      var url := PngUrl(reply.body);
      var recorded := s.(imageData := Some(reply.body), imageUrl := if url.Some? then url.value else s.imageUrl);
      AddNdviOverlayInv(recorded.(status := Status("Map data loaded successfully", Success)));
    }
  }

  lemma HandleCatalogInv(s: State, reply: Reply<ArrayBody<CatalogEntry>>)
    requires Inv(s)
    ensures Inv(HandleCatalog(s, reply))
  {
  }

  lemma HandleTokenInv(s: State, reply: Reply<Option<string>>)
    requires Inv(s)
    ensures Inv(HandleToken(s, reply))
  {
  }

  lemma HandleFieldInv(s: State, reply: Reply<Option<Feature>>)
    requires Inv(s)
    ensures Inv(HandleField(s, reply))
  {
    var r := HandleField(s, reply);
    assert r.overlays == s.overlays && r.nextLayerId == s.nextLayerId;
  }

  lemma HandleSeasonInv(s: State, reply: Reply<ArrayBody<SeasonField>>)
    requires Inv(s)
    ensures Inv(HandleSeason(s, reply))
  {
  }

  /** Answering a request keeps the invariant, whichever request it is. */
  lemma CompleteInv(s: State, i: nat, c: Completion)
    requires Inv(s) && i < |s.pending| && Answers(c, s.pending[i])
    ensures Inv(Complete(s, i, c))
  {
    var s' := s.(pending := RemoveAt(s.pending, i));
    assert Inv(s');
    match c
    case TokenDone(reply) => HandleTokenInv(s', reply);
    case FieldDone(reply) => HandleFieldInv(s', reply);
    case SeasonDone(reply) => HandleSeasonInv(s', reply);
    case CatalogDone(reply) => HandleCatalogInv(s', reply);
    case ImageDone(reply) => HandleImageInv(s', reply);
  }

  /** Every event keeps the invariant. */
  lemma StepInv(s: State, e: Event)
    requires Inv(s) && Enabled(s, e)
    ensures Inv(Step(s, e))
  {
    match e
    case Click(lng, lat) => MapClickInv(s, lng, lat);
    case NdviButton => ToggleNdviInv(s);
    case ImageTypeSelected(t) =>
    case Completed(i, c) => CompleteInv(s, i, c);
  }

  // ---------------------------------------------------------------------------
  // Toggle and overlay laws.

  /** Toggling NDVI on and straight back off (before any reply) leaves no
      referenced overlay, the polygon at fill 0.3, the button reading
      "Show NDVI" and the image-type control hidden. */
  lemma ToggleOnThenOff(s: State)
    requires Inv(s) && s.polygon.Some? && !s.showNdvi
    ensures var r := ToggleNdvi(ToggleNdvi(s));
            && !r.showNdvi && r.buttonLabel == ShowLabel
            && r.ndviLayer.None? && !r.imageTypeControlVisible
            && r.polygon.Some? && r.polygon.value.fillOpacity == FillOpacity
  {
    ToggleNdviInv(s);
  }

  /** Two overlays added one after the other both stay on the map; the
      component only refers to the second. */
  lemma OverlaysStack(s: State)
    requires s.polygon.Some? && s.imageUrl != ""
    ensures var r := AddNdviOverlay(AddNdviOverlay(s));
            && |r.overlays| == |s.overlays| + 2
            && r.overlays[|s.overlays|] == Overlay(s.nextLayerId, s.imageUrl, OverlayOpacity)
            && r.ndviLayer == Some(r.overlays[|s.overlays| + 1].id)
            && r.ndviLayer != Some(s.nextLayerId)
  {
    var once := AddNdviOverlay(s);
    assert once.polygon.Some? && once.imageUrl != "";
  }

  /** Toggling off removes only the referenced overlay: an earlier stacked one
      stays on the map. */
  lemma StackedOverlaySurvivesToggleOff(s: State, o: Overlay)
    requires s.polygon.Some? && s.showNdvi && s.ndviLayer.Some?
    requires o in s.overlays && o.id != s.ndviLayer.value
    ensures o in ToggleNdvi(s).overlays
  {
  }

  /** `removeNDVIOverlay` twice is `removeNDVIOverlay` once. */
  lemma RemoveIdempotent(s: State)
    ensures RemoveNdviOverlay(RemoveNdviOverlay(s)) == RemoveNdviOverlay(s)
  {
  }

  /** An image reply without a PNG link keeps the URL already held, and with
      a polygon on the map lays another overlay with that URL. */
  lemma ImageReplyWithoutLinkReusesUrl(s: State, body: ArrayBody<ImageResult>)
    requires PngUrl(body).None? && s.polygon.Some? && s.imageUrl != ""
    ensures var r := HandleImage(s, Received(body));
            && r.imageUrl == s.imageUrl
            && r.overlays == s.overlays + [Overlay(s.nextLayerId, s.imageUrl, OverlayOpacity)]
  {
  }

  /** With no URL at all, the image reply reports an error and adds no layer. */
  lemma ImageReplyWithoutUrlAddsNothing(s: State, body: ArrayBody<ImageResult>)
    requires PngUrl(body).None? && s.imageUrl == "" && s.polygon.Some?
    ensures var r := HandleImage(s, Received(body));
            && r.overlays == s.overlays && r.ndviLayer == s.ndviLayer
            && r.status == Status("No image URL available", Error)
  {
  }

  // ---------------------------------------------------------------------------
  // Guards of the overlay requests.

  /** Without a token the NDVI button only reports an error: no request. */
  lemma NoTokenNoCatalogRequest(s: State)
    requires s.token == "" && s.polygon.Some? && !s.showNdvi
    ensures ToggleNdvi(s).pending == s.pending
    ensures ToggleNdvi(s).status == Status(NoAuthMessage, Error)
  {
  }

  /** A catalog reply whose first entry has no image id, when no id was held
      before, ends in the sensor-id error and issues no image request. */
  lemma CatalogWithoutImageId(s: State, body: ArrayBody<CatalogEntry>)
    requires s.token != "" && s.imageSensorId == "" && CatalogImageId(body).None?
    ensures HandleCatalog(s, Received(body)).pending == s.pending
    ensures HandleCatalog(s, Received(body)).status == Status(NoSensorIdMessage, Error)
  {
  }

  /** A catalog reply with an image id but no season-field record held: the
      image call throws and the catalog chain reports its own error. */
  lemma CatalogWithoutSeasonField(s: State, body: ArrayBody<CatalogEntry>)
    requires s.token != "" && s.seasonFieldInfo.None? && CatalogImageId(body).Some?
    ensures HandleCatalog(s, Received(body)).pending == s.pending
    ensures HandleCatalog(s, Received(body)).status == Status("Error loading NDVI data", Error)
    ensures HandleCatalog(s, Received(body)).imageSensorId == CatalogImageId(body).value
  {
  }

  /** A complete catalog reply issues the image request for its first entry's
      image id and the held season field, with the selected image type. */
  lemma CatalogIssuesImageRequest(s: State, body: ArrayBody<CatalogEntry>)
    requires s.token != "" && s.seasonFieldInfo.Some? && CatalogImageId(body).Some?
    ensures HandleCatalog(s, Received(body)).pending ==
              s.pending + [ImageFor(CatalogImageId(body).value, s.seasonFieldInfo.value.id, s.selectedImageType)]
  {
  }

  // ---------------------------------------------------------------------------
  // Scenarios.

  /** Click, field "F1" arrives, its season field "SF1" (crop Wheat) arrives. */
  lemma ClickLoadsFieldAndSeason(token: string, g: Geometry)
    requires token != ""
    ensures
      var s0 := Init().(token := token, pending := []);
      var s1 := Step(s0, Click(11.19, 60.74));
      var f := Feature(Some("F1"), Some(g));
      assert s1.pending == [FieldAt(11.19, 60.74)];
      var s2 := Step(s1, Completed(0, FieldDone(Received(Some(f)))));
      assert s2.pending == [SeasonFieldsFor("F1")];
      var s3 := Step(s2, Completed(0, SeasonDone(Received(AnArray([SeasonField("SF1", "Wheat")])))));
      && s2.polygon == Some(DrawnPolygon(f, FillOpacity))
      && s3.seasonFieldInfo == Some(SeasonField("SF1", "Wheat"))
      && s3.polygon == s2.polygon
  {
  }

  /** Two fields selected one after the other; their season-field replies
      arrive in reverse order. The older field's record ends up held while the
      newer field is drawn: nothing discards a stale reply. */
  lemma StaleSeasonReplyWins(a: Feature, b: Feature, ra: SeasonField, rb: SeasonField)
    requires a.id == Some("A") && b.id == Some("B") && a.geometry.Some? && b.geometry.Some?
    ensures
      var s0 := Init().(pending := []);
      var s1 := Step(s0, Click(1.0, 1.0));
      assert s1.pending == [FieldAt(1.0, 1.0)];
      var s2 := Step(s1, Completed(0, FieldDone(Received(Some(a)))));
      assert s2.pending == [SeasonFieldsFor("A")];
      var s3 := Step(s2, Click(2.0, 2.0));
      assert s3.pending == [SeasonFieldsFor("A"), FieldAt(2.0, 2.0)];
      var s4 := Step(s3, Completed(1, FieldDone(Received(Some(b)))));
      assert s4.pending == [SeasonFieldsFor("A"), SeasonFieldsFor("B")];
      var s5 := Step(s4, Completed(1, SeasonDone(Received(AnArray([rb])))));
      assert s5.pending == [SeasonFieldsFor("A")];
      var s6 := Step(s5, Completed(0, SeasonDone(Received(AnArray([ra])))));
      && s6.polygon == Some(DrawnPolygon(b, FillOpacity))
      && s6.seasonFieldInfo == Some(ra)
  {
  }
}
