/**
 * The ten predefined campus spots. The booking screen looks a spot up by its exact name; the map
 * screen falls back to the first spot whose name contains the search text, ignoring case, in the
 * order listed here.
 */
module Campus {
  import opened Wrappers
  import opened Text

  datatype Spot = Spot(name: string, latitude: real, longitude: real)

  const Spots: seq<Spot> := [
    Spot("Main Campus Gate", -26.1908, 28.0307),
    Spot("Student Center", -26.1915, 28.0312),
    Spot("Library", -26.1920, 28.0320),
    Spot("Science Building", -26.1925, 28.0328),
    Spot("Engineering Block", -26.1930, 28.0335),
    Spot("Sports Complex", -26.1895, 28.0295),
    Spot("Residence A", -26.1940, 28.0340),
    Spot("Residence B", -26.1945, 28.0345),
    Spot("Cafeteria", -26.1910, 28.0315),
    Spot("Admin Building", -26.1900, 28.0300)
  ]

  /** The spot the booking screen's current-location button stands for. */
  const CurrentLocation := "Student Center"

  /** No two spots share a name, so a lookup by name is unambiguous. */
  lemma NamesDistinct()
    ensures forall i, j :: 0 <= i < j < |Spots| ==> Spots[i].name != Spots[j].name
  {
  }

  /** No spot has a zero coordinate, so choosing two spots always completes a booking's coordinates. */
  lemma CoordinatesNonZero()
    ensures forall i :: 0 <= i < |Spots| ==> Spots[i].latitude != 0.0 && Spots[i].longitude != 0.0
  {
  }

  /** No two spots share a latitude, so a point tells which spot it is. */
  lemma LatitudesDistinct()
    ensures forall i, j :: 0 <= i < j < |Spots| ==> Spots[i].latitude != Spots[j].latitude
  {
  }

  /** Spot names carry no surrounding whitespace, so a trimmed text field can hold one exactly. */
  lemma NamesTrimmed(j: nat)
    requires j < |Spots|
    ensures Trim(Spots[j].name) == Spots[j].name
  {
    TrimKeeps(Spots[j].name);
  }

  /** The spot of `table` named exactly `name`, searching from position `i` on. */
  function LookupFrom(table: seq<Spot>, name: string, i: nat): (r: Option<Spot>)
    requires i <= |table|
    ensures r.Some? ==> r.value.name == name
    decreases |table| - i
  {
    if i == |table| then None
    else if table[i].name == name then Some(table[i])
    else LookupFrom(table, name, i + 1)
  }

  /** The campus spot named exactly `name` (the booking screen's table lookup). */
  function Lookup(name: string): (r: Option<Spot>)
    ensures r.Some? ==> r.value.name == name
  {
    LookupFrom(Spots, name, 0)
  }

  /** The lookup finds a spot exactly when one is listed under that name. */
  lemma {:induction false} LookupFromSpec(table: seq<Spot>, name: string, i: nat)
    requires i <= |table|
    ensures LookupFrom(table, name, i).Some? <==> exists j :: i <= j < |table| && table[j].name == name
    ensures LookupFrom(table, name, i).Some? ==> LookupFrom(table, name, i).value in table[i..]
    decreases |table| - i
  {
    if i < |table| && table[i].name != name {
      LookupFromSpec(table, name, i + 1);
      assert table[i + 1..] == table[i..][1..];
    }
  }

  /** The lookup finds a listed spot exactly when one is listed under that name. */
  lemma LookupSpec(name: string)
    ensures Lookup(name).Some? <==> exists j :: 0 <= j < |Spots| && Spots[j].name == name
    ensures Lookup(name).Some? ==> Lookup(name).value in Spots
  {
    LookupFromSpec(Spots, name, 0);
  }

  /** Every listed name finds its own spot. */
  lemma LookupFindsEachSpot(j: nat)
    requires j < |Spots|
    ensures Lookup(Spots[j].name) == Some(Spots[j])
  {
    NamesDistinct();
    LookupSpec(Spots[j].name);
  }

  /** The first spot of `table` from position `i` on whose name contains `query`, ignoring case. */
  function SearchFrom(table: seq<Spot>, query: string, i: nat): (r: Option<nat>)
    requires i <= |table|
    ensures r.Some? ==> i <= r.value < |table| && ContainsIgnoreCase(table[r.value].name, query)
    ensures r.Some? ==> forall j :: i <= j < r.value ==> !ContainsIgnoreCase(table[j].name, query)
    ensures r.None? ==> forall j :: i <= j < |table| ==> !ContainsIgnoreCase(table[j].name, query)
    decreases |table| - i
  {
    if i == |table| then None
    else if ContainsIgnoreCase(table[i].name, query) then Some(i)
    else SearchFrom(table, query, i + 1)
  }

  /** The map screen's fallback search: the first matching spot in table order, if any. */
  function Search(query: string): (r: Option<Spot>)
    ensures r.Some? ==> r.value in Spots
    ensures r.Some? ==> exists k :: (0 <= k < |Spots| && Spots[k] == r.value
      && ContainsIgnoreCase(r.value.name, query)
      && forall j :: 0 <= j < k ==> !ContainsIgnoreCase(Spots[j].name, query))
    ensures r.None? <==> forall j :: 0 <= j < |Spots| ==> !ContainsIgnoreCase(Spots[j].name, query)
  {
    var k := SearchFrom(Spots, query, 0);
    if k.Some? then Some(Spots[k.value]) else None
  }

  /** A search for a spot's full name, in any case, finds a spot whose name contains it. */
  lemma SearchFindsFullName(j: nat)
    requires j < |Spots|
    ensures Search(Spots[j].name).Some?
  {
    assert MatchesAt(Spots[j].name, Spots[j].name, 0);
  }
}
