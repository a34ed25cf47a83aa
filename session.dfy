/**
 * The page's mutable state: the module globals (`markers`, `currentLocation`),
 * the map layers the markers sit on, the card grid with its "active" card, the
 * grid's message, the loader and the count line; and the event handlers that
 * change it.  The network is a parameter: `overpass` answers a place query at
 * a coordinate, `geocode` a free-text location search (`None` when the request
 * itself fails).
 */
module CafeFinder {
  import opened Wrappers
  import opened Text
  import opened Places

  /** The ids of a list of markers. */
  function MarkerIds(ms: seq<Marker>): set<MarkerId>
  {
    if ms == [] then {} else MarkerIds(ms[..|ms| - 1]) + {ms[|ms| - 1].id}
  }

  /** Markers numbered from `base` have ids from `base` on: none is an id handed out before. */
  lemma {:induction false} MarkersForIds(es: seq<Place>, base: MarkerId)
    ensures forall id :: id in MarkerIds(MarkersFor(es, base)) ==> base <= id < base + |es|
  {
    if es != [] {
      var init := es[..|es| - 1];
      MarkersForIds(init, base);
      var ms := MarkersFor(es, base);
      assert ms[..|ms| - 1] == MarkersFor(init, base);
    }
  }

  class Session {
    /** `markers`: the markers of the last render, in element order. */
    var markers: seq<Marker>
    /** The markers currently added to the map. */
    var mapLayers: set<MarkerId>
    /** The next marker object to be created gets this id; ids are never reused. */
    var nextMarker: MarkerId
    /** The cards in the grid, in element order. */
    var cards: seq<Card>
    /** Positions of the cards that carry the `active` class. */
    var active: set<nat>
    /** The message the grid shows instead of cards, if any. */
    var notice: Option<Notice>
    var loaderVisible: bool
    var gridVisible: bool
    /** The text of the count line. */
    var countText: string
    /** `currentLocation`: null until a location is known. */
    var currentLocation: Option<Coord>

    /** Marker `i` and card `i` belong together, and every shown marker is on the map. */
    ghost predicate Valid()
      reads this`markers, this`mapLayers, this`nextMarker, this`cards, this`active
    {
      && |markers| == |cards|
      && mapLayers == MarkerIds(markers)
      && (forall id :: id in mapLayers ==> id < nextMarker)
      && (forall i :: 0 <= i < |cards| ==> cards[i].marker == markers[i].id && cards[i].pos == markers[i].pos)
      && (forall a :: a in active ==> a < |cards|)
    }

    /** The part of the page one render determines. */
    function Shown(): View
      reads this`markers, this`cards, this`notice, this`countText
    {
      Places.View(markers, cards, notice, countText)
    }

    /** The state at the end of a render of `outcome` whose markers were numbered from `base`. */
    ghost predicate Rendered(outcome: FetchOutcome, base: MarkerId)
      reads this`markers, this`mapLayers, this`nextMarker, this`cards, this`active, this`notice,
        this`loaderVisible, this`gridVisible, this`countText
    {
      && Shown() == RenderView(outcome, base)
      && mapLayers == MarkerIds(markers)
      && nextMarker == base + |markers|
      && active == {}
      && !loaderVisible && gridVisible
    }

    /** The module globals before anything has run: no markers and no current location. */
    constructor ()
      ensures Valid()
      ensures markers == [] && mapLayers == {} && cards == [] && active == {} && notice == None
      ensures currentLocation == None
    {
      markers, mapLayers, nextMarker := [], {}, 0;
      cards, active, notice := [], {}, None;
      loaderVisible, gridVisible := false, true;
      countText := "";
      currentLocation := None;
    }

    /** `showLoader`: the loader and the grid are shown alternately. */
    method ShowLoader(show: bool)
      modifies this`loaderVisible, this`gridVisible
      ensures loaderVisible == show && gridVisible == !show
    {
      loaderVisible := show;
      gridVisible := !show;
    }

    /** `updateCount`. */
    method UpdateCount(n: nat)
      modifies this`countText
      ensures countText == CountText(n)
    {
      countText := CountText(n);
    }

    /** `clearMarkers`: every marker leaves the map, the marker list is reset and the grid is emptied. */
    method ClearMarkers()
      requires Valid()
      modifies this`markers, this`mapLayers, this`cards, this`active, this`notice
      ensures Valid()
      ensures mapLayers == old(mapLayers) - MarkerIds(old(markers)) == {}
      ensures markers == [] && cards == [] && active == {} && notice == None
    {
      var k := 0;
      while k < |markers|
        invariant 0 <= k <= |markers|
        invariant markers == old(markers)
        invariant mapLayers == old(mapLayers) - MarkerIds(markers[..k])
      {
        assert markers[..k + 1][..k] == markers[..k];
        mapLayers := mapLayers - {markers[k].id};
        k := k + 1;
      }
      assert markers[..k] == markers;
      assert mapLayers == {};
      markers := [];
      cards, active, notice := [], {}, None;
    }

    /** Replaces whatever the grid holds by a message. */
    method ShowNotice(n: Notice)
      requires Valid() && markers == []
      modifies this`cards, this`active, this`notice
      ensures Valid()
      ensures cards == [] && active == {} && notice == Some(n)
    {
      cards, active, notice := [], {}, Some(n);
    }

    /** `createMarkerAndCard` with `addCard`: a new marker on the map for the place, and its card appended to the grid. */
    method CreateMarkerAndCard(place: Place, index: nat)
      requires Valid()
      modifies this`markers, this`mapLayers, this`nextMarker, this`cards
      ensures Valid()
      ensures markers == old(markers) + [MarkerFor(place, old(nextMarker))]
      ensures cards == old(cards) + [CardFor(place, index, old(nextMarker))]
      ensures mapLayers == old(mapLayers) + {old(nextMarker)}
      ensures nextMarker == old(nextMarker) + 1
    {
      var marker := MarkerFor(place, nextMarker);
      nextMarker := nextMarker + 1;
      mapLayers := mapLayers + {marker.id};
      assert (markers + [marker])[..|markers|] == markers;
      markers := markers + [marker];
      cards := cards + [CardFor(place, index, marker.id)];
    }

    /**
     * `fetchAndRender`: show the loader, tear down the previous markers and
     * cards, query the places around `location`, render one marker and one
     * card per element (or the matching message), and hide the loader.
     */
    method FetchAndRender(location: Coord, overpass: Coord -> FetchOutcome)
      requires Valid()
      modifies this`markers, this`mapLayers, this`nextMarker, this`cards, this`active, this`notice,
        this`loaderVisible, this`gridVisible, this`countText
      ensures Valid()
      ensures Rendered(overpass(location), old(nextMarker))
      ensures mapLayers !! old(mapLayers)
    {
      ShowLoader(true);
      ClearMarkers();
      UpdateCount(0);
      ghost var base := nextMarker;
      assert base == old(nextMarker);
      RenderOutcome(overpass(location));
      assert nextMarker == base + |markers| && Shown() == RenderView(overpass(location), base);
      ShowLoader(false);
    }

    /** The body of `fetchAndRender` between the two loader calls, on a page just cleared. */
    method RenderOutcome(outcome: FetchOutcome)
      requires Valid() && markers == [] && cards == [] && active == {} && notice == None
      requires countText == CountText(0)
      modifies this`markers, this`mapLayers, this`nextMarker, this`cards, this`active, this`notice, this`countText
      ensures Valid() && active == {}
      ensures Shown() == RenderView(outcome, old(nextMarker))
      ensures mapLayers == MarkerIds(markers) && nextMarker == old(nextMarker) + |markers|
      ensures forall id :: id in mapLayers ==> old(nextMarker) <= id
    {
      ghost var base := nextMarker;
      match outcome {
        case Success(es) =>
          if |es| > 0 {
            RenderPlaces(es);
            UpdateCount(|es|);
            MarkersForIds(es, base);
            assert markers == MarkersFor(es, base);
            assert cards == CardsFor(es, base);
            assert notice == None;
            assert countText == CountText(|es|);
          } else {
            ShowNotice(NoCafesNearby);
            UpdateCount(0);
          }
        case Failure =>
          ShowNotice(FetchFailed);
      }
    }

    /** The `forEach` of `fetchAndRender`: one marker and one card per element, in order, on an empty page. */
    method RenderPlaces(es: seq<Place>)
      requires Valid() && markers == [] && cards == []
      modifies this`markers, this`mapLayers, this`nextMarker, this`cards
      ensures Valid()
      ensures markers == MarkersFor(es, old(nextMarker)) && cards == CardsFor(es, old(nextMarker))
      ensures nextMarker == old(nextMarker) + |es|
    {
      var base := nextMarker;
      for i := 0 to |es|
        invariant Valid()
        invariant markers == MarkersFor(es[..i], base) && cards == CardsFor(es[..i], base)
        invariant nextMarker == base + i
      {
        AppendPlace(es, base, i);
      }
      assert es[..|es|] == es;
    }

    /** One step of `RenderPlaces`: element `i` gets its marker and its card. */
    method AppendPlace(es: seq<Place>, base: MarkerId, i: nat)
      requires Valid() && i < |es| && nextMarker == base + i
      requires markers == MarkersFor(es[..i], base) && cards == CardsFor(es[..i], base)
      modifies this`markers, this`mapLayers, this`nextMarker, this`cards
      ensures Valid() && nextMarker == base + i + 1
      ensures markers == MarkersFor(es[..i + 1], base) && cards == CardsFor(es[..i + 1], base)
    {
      ghost var cardsBefore := cards;
      MarkersForSnoc(es, base, i);
      CardsForSnoc(es, base, i);
      CreateMarkerAndCard(es[i], i);
      assert cards == cardsBefore + [CardFor(es[i], i, base + i)];
    }

    /**
     * A click on card `i`: the `active` class is stripped from every card and
     * put on card `i`; the returned marker has its popup opened and the map is
     * centred on the returned coordinate.
     */
    method ClickCard(i: nat) returns (popupMarker: MarkerId, center: Coord)
      requires Valid() && i < |cards|
      modifies this`active
      ensures Valid()
      ensures active == {i}
      ensures popupMarker == markers[i].id && center == cards[i].pos
    {
      var k := 0;
      while k < |cards|
        invariant 0 <= k <= |cards|
        invariant forall a :: a in active ==> k <= a < |cards|
      {
        active := active - {k};
        k := k + 1;
      }
      active := active + {i};
      popupMarker, center := cards[i].marker, cards[i].pos;
    }

    /** Geolocation succeeded: remember the device position and render there. */
    method OnGeolocated(pos: Coord, overpass: Coord -> FetchOutcome)
      requires Valid()
      modifies this
      ensures Valid()
      ensures currentLocation == Some(pos)
      ensures Rendered(overpass(pos), old(nextMarker))
    {
      currentLocation := Some(pos);
      FetchAndRender(pos, overpass);
    }

    /** Geolocation failed or is unsupported: fall back to the default location and render there. */
    method OnGeolocationUnavailable(overpass: Coord -> FetchOutcome)
      requires Valid()
      modifies this
      ensures Valid()
      ensures currentLocation == Some(DefaultLocation)
      ensures Rendered(overpass(DefaultLocation), old(nextMarker))
    {
      currentLocation := Some(DefaultLocation);
      FetchAndRender(DefaultLocation, overpass);
    }

    /**
     * `onSearch` for the text `input`.  Returns the query sent to the
     * geocoder, if one was sent, and whether the "couldn't find" alert was
     * raised.  A blank query re-renders where the page already is (the
     * default location while none is known) without geocoding; otherwise
     * the trimmed query is searched for.
     */
    method OnSearch(input: string, geocode: string -> Option<seq<Coord>>, overpass: Coord -> FetchOutcome)
        returns (query: Option<string>, alerted: bool)
      requires Valid()
      modifies this
      ensures Valid()
      ensures Trim(input) == [] ==>
        && query == None && !alerted
        && currentLocation == old(currentLocation)
        && Rendered(overpass(old(currentLocation).GetOr(DefaultLocation)), old(nextMarker))
      ensures Trim(input) != [] ==> query == Some(Trim(input)) && Searched(Trim(input), geocode, overpass, alerted)
    {
      var q := Trim(input);
      if q == [] {
        query, alerted := None, false;
        FetchAndRender(currentLocation.GetOr(DefaultLocation), overpass);
      } else {
        query := Some(q);
        alerted := SearchFor(q, geocode, overpass);
      }
    }

    /**
     * What a search for the non-blank query `q` leaves behind: a found
     * location becomes current and is rendered; a search that finds nothing
     * raises the alert and changes nothing; a failed request changes nothing.
     */
    twostate predicate Searched(q: string, geocode: string -> Option<seq<Coord>>, overpass: Coord -> FetchOutcome, alerted: bool)
      reads this
    {
      match geocode(q)
      case Some(found) =>
        if found != [] then
          && !alerted && currentLocation == Some(found[0])
          && Rendered(overpass(found[0]), old(nextMarker))
        else
          alerted && unchanged(this)
      case None => !alerted && unchanged(this)
    }

    /** The geocoding half of `onSearch`, for a query already trimmed and non-blank. */
    method SearchFor(q: string, geocode: string -> Option<seq<Coord>>, overpass: Coord -> FetchOutcome) returns (alerted: bool)
      requires Valid()
      modifies this
      ensures Valid()
      ensures Searched(q, geocode, overpass, alerted)
    {
      alerted := false;
      match geocode(q) {
        case None =>
        case Some(found) =>
          if |found| > 0 {
            var loc := found[0];
            currentLocation := Some(loc);
            FetchAndRender(loc, overpass);
          } else {
            alerted := true;
          }
      }
    }
  }

  /**
   * Two renders in a row: the layers the first one put on the map are exactly
   * its markers', and none of them is left on the map after the second.
   */
  method RenderTwice(s: Session, at: Coord, first: Coord -> FetchOutcome, second: Coord -> FetchOutcome)
      returns (firstLayers: set<MarkerId>)
    requires s.Valid()
    modifies s
    ensures s.Valid()
    ensures firstLayers == MarkerIds(RenderView(first(at), old(s.nextMarker)).markers)
    ensures firstLayers !! s.mapLayers
    ensures s.active == {} && !s.loaderVisible && s.gridVisible
  {
    s.FetchAndRender(at, first);
    firstLayers := s.mapLayers;
    s.FetchAndRender(at, second);
  }
}
