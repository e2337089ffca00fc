/**
 * The map screen for picking a place: a tap (or the current-location button) selects a point and
 * names it from the reverse-geocoded address; a search goes to the geocoder first and falls back
 * to the campus table; confirming hands back the selected point and its name. The geocoder is
 * foreign code, so its answers are parameters.
 */
module MapSelection {
  import opened Wrappers
  import opened Text
  import Campus

  datatype Point = Point(latitude: real, longitude: real)

  /** Where the current-location button goes (the map's default centre). */
  const DefaultLocation := Point(-26.2041, 28.0473)

  function PointOf(s: Campus.Spot): Point {
    Point(s.latitude, s.longitude)
  }

  /** The parts of a geocoded address the screen reads; each may be null. */
  datatype Address = Address(addressLine: Option<string>, thoroughfare: Option<string>,
                             featureName: Option<string>, locality: Option<string>)

  /** A reverse-geocoding answer: a (possibly empty) list of addresses, or a thrown error. */
  datatype Reverse = Addresses(list: seq<Address>) | ReverseFailed

  /** A forward-geocoding answer: the first address's point and address line, nothing, or a thrown error. */
  datatype Forward = Located(point: Point, addressLine: Option<string>) | NotLocated | ForwardFailed

  /** Kotlin `!isNullOrEmpty()`. */
  predicate Present(s: Option<string>) {
    s.Some? && s.value != []
  }

  /**
   * The name a selected point gets: the first address's thoroughfare, else its feature name, else
   * its locality, else its address line, else "Unknown Location"; "Selected Location" when there
   * is no address or the geocoder fails.
   */
  function PlaceName(r: Reverse): (name: string)
    ensures (r.ReverseFailed? || r.list == []) ==> name == "Selected Location"
    ensures r.Addresses? && r.list != [] ==> var a := r.list[0];
      && (Present(a.thoroughfare) ==> name == a.thoroughfare.value)
      && (!Present(a.thoroughfare) && Present(a.featureName) ==> name == a.featureName.value)
      && (!Present(a.thoroughfare) && !Present(a.featureName) && Present(a.locality) ==> name == a.locality.value)
      && ((!Present(a.thoroughfare) && !Present(a.featureName) && !Present(a.locality))
            ==> name == a.addressLine.GetOr("Unknown Location"))
  {
    match r
    case ReverseFailed => "Selected Location"
    case Addresses(list) =>
      if list == [] then "Selected Location"
      else
        var a := list[0];
        if Present(a.thoroughfare) then a.thoroughfare.value
        else if Present(a.featureName) then a.featureName.value
        else if Present(a.locality) then a.locality.value
        else a.addressLine.GetOr("Unknown Location")
  }

  /** Only the first address counts: later ones never change the name. */
  lemma PlaceNameUsesFirstAddress(a: Address, rest: seq<Address>, rest': seq<Address>)
    ensures PlaceName(Addresses([a] + rest)) == PlaceName(Addresses([a] + rest'))
  {
    assert ([a] + rest)[0] == a && ([a] + rest')[0] == a;
  }

  /** A name is always one of the address's own fields or one of the two fixed defaults. */
  lemma PlaceNameOrigin(r: Reverse)
    ensures var name := PlaceName(r);
      || name == "Selected Location" || name == "Unknown Location"
      || (r.Addresses? && r.list != [] && Some(name) in
            {r.list[0].thoroughfare, r.list[0].featureName, r.list[0].locality, r.list[0].addressLine})
  {
  }

  /** The table name shown for a point: the first spot at exactly those coordinates. */
  function SpotNameAt(p: Point, i: nat): (r: Option<string>)
    requires i <= |Campus.Spots|
    ensures r.Some? ==> exists j :: i <= j < |Campus.Spots| && PointOf(Campus.Spots[j]) == p && Campus.Spots[j].name == r.value
    decreases |Campus.Spots| - i
  {
    if i == |Campus.Spots| then None
    else if PointOf(Campus.Spots[i]) == p then Some(Campus.Spots[i].name)
    else SpotNameAt(p, i + 1)
  }

  /** No two spots share a point, so the name found back from a spot's point is its own. */
  lemma {:induction false} SpotNameAtOwnPoint(j: nat, i: nat)
    requires i <= j < |Campus.Spots|
    ensures SpotNameAt(PointOf(Campus.Spots[j]), i) == Some(Campus.Spots[j].name)
    decreases j - i
  {
    if i < j {
      assert PointOf(Campus.Spots[i]) != PointOf(Campus.Spots[j]);
      SpotNameAtOwnPoint(j, i + 1);
    }
  }

  /** A campus search result is written back into the search field under its own table name. */
  lemma CampusMatchShowsItsName(query: string)
    requires Campus.Search(query).Some?
    ensures SpotNameAt(PointOf(Campus.Search(query).value), 0) == Some(Campus.Search(query).value.name)
  {
    var s := Campus.Search(query).value;
    var k :| 0 <= k < |Campus.Spots| && Campus.Spots[k] == s;
    SpotNameAtOwnPoint(k, 0);
  }

  /** What confirming hands back: the place name and the selected point, unchanged. */
  datatype Selection = Selection(name: string, point: Point)

  class MapSelectionScreen {
    var selectedLocation: Option<Point>
    var selectedLocationName: string
    var shownName: string
    var searchText: string
    var confirmEnabled: bool

    /** Nothing is selected yet; whether confirm starts enabled is the layout's choice. */
    constructor (layoutConfirmEnabled: bool)
      ensures selectedLocation.None? && selectedLocationName == [] && confirmEnabled == layoutConfirmEnabled
      ensures shownName == [] && searchText == []
    {
      selectedLocation, selectedLocationName, shownName, searchText := None, "", "", "";
      confirmEnabled := layoutConfirmEnabled;
    }

    /** A map tap: the point is selected, named from the reverse lookup, and confirm is enabled. */
    method Tap(p: Point, r: Reverse)
      modifies this
      ensures selectedLocation == Some(p)
      ensures selectedLocationName == PlaceName(r) && shownName == selectedLocationName
      ensures confirmEnabled
      ensures searchText == old(searchText)
    {
      selectedLocation := Some(p);
      selectedLocationName := PlaceName(r);
      shownName := selectedLocationName;
      confirmEnabled := true;
    }

    /** The current-location button taps the default location. */
    method CurrentLocation(r: Reverse)
      modifies this
      ensures selectedLocation == Some(DefaultLocation)
      ensures selectedLocationName == PlaceName(r) && shownName == selectedLocationName
      ensures confirmEnabled && searchText == old(searchText)
    {
      Tap(DefaultLocation, r);
    }

    /**
     * A search on the trimmed text (none when it is blank): a geocoder hit is tapped; otherwise
     * the first campus spot whose name contains the text is tapped and its name written into the
     * field; with no match either, "Location not found" shows, confirm is disabled and the
     * previous selection stays.
     */
    method Search(query: string, forward: Forward, r: Reverse)
      modifies this
      ensures Trim(query) == [] ==> selectedLocation == old(selectedLocation) && selectedLocationName == old(selectedLocationName)
                                    && confirmEnabled == old(confirmEnabled)
                                    && searchText == old(searchText) && shownName == old(shownName)
      ensures Trim(query) != [] && forward.Located? ==>
        selectedLocation == Some(forward.point) && confirmEnabled && selectedLocationName == PlaceName(r)
        && shownName == selectedLocationName && searchText == forward.addressLine.GetOr("")
      ensures Trim(query) != [] && !forward.Located? && Campus.Search(Trim(query)).Some? ==>
        var s := Campus.Search(Trim(query)).value;
        selectedLocation == Some(PointOf(s)) && confirmEnabled && selectedLocationName == PlaceName(r)
        && shownName == selectedLocationName && searchText == s.name
      ensures Trim(query) != [] && !forward.Located? && Campus.Search(Trim(query)).None? ==>
        selectedLocation == old(selectedLocation) && selectedLocationName == old(selectedLocationName)
        && !confirmEnabled && shownName == "Location not found" && searchText == old(searchText)
    {
      var q := Trim(query);
      if q == [] {
        return;
      }
      if forward.Located? {
        Tap(forward.point, r);
        searchText := forward.addressLine.GetOr("");
        return;
      }
      var spot := Campus.Search(q);
      if spot.Some? {
        var p := PointOf(spot.value);
        Tap(p, r);
        CampusMatchShowsItsName(q);
        searchText := SpotNameAt(p, 0).value;
      } else {
        shownName := "Location not found";
        confirmEnabled := false;
      }
    }

    /** The confirm button: a result only while it is enabled and a point is selected. */
    method Confirm() returns (result: Option<Selection>)
      ensures result.Some? <==> confirmEnabled && selectedLocation.Some?
      ensures result.Some? ==> result.value == Selection(selectedLocationName, selectedLocation.value)
    {
      if confirmEnabled && selectedLocation.Some? {
        result := Some(Selection(selectedLocationName, selectedLocation.value));
      } else {
        result := None;
      }
    }
  }
}
