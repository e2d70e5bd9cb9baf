/**
 * The location search box of the add-ride form (`LocationSearch`): the typed
 * query, the results shown in a drop-down, and whether the query is the name
 * of a place just chosen. The debounced search is split into the effect that
 * schedules it and the completion that receives its outcome.
 */
module LocationSearch {
  import opened Wrappers
  import opened Text
  import opened Api
  import opened Locations
  import opened LocationService

  /** The present parts of an address, in the order city, state, country. */
  function AddressParts(a: Address): (parts: seq<string>)
    ensures |parts| <= 3 && forall i :: 0 <= i < |parts| ==> parts[i] != ""
    ensures parts == [] <==> !Truthy(a.city) && !Truthy(a.state) && !Truthy(a.country)
    ensures |parts| == (if Truthy(a.city) then 1 else 0) + (if Truthy(a.state) then 1 else 0) +
                       (if Truthy(a.country) then 1 else 0)
    ensures Truthy(a.city) ==> parts[0] == a.city.value
    ensures Truthy(a.state) ==> parts[if Truthy(a.city) then 1 else 0] == a.state.value
    ensures Truthy(a.country) ==> parts[|parts| - 1] == a.country.value
  {
    (if Truthy(a.city) then [a.city.value] else []) +
    (if Truthy(a.state) then [a.state.value] else []) +
    (if Truthy(a.country) then [a.country.value] else [])
  }

  /** The label of a place in the drop-down: its present address parts joined
      by ", ", or its name when it has none. */
  method FormatLocationName(location: Place) returns (display: string)
    ensures AddressParts(location.address) == [] ==> display == location.name
    ensures AddressParts(location.address) != [] ==> display == Join(AddressParts(location.address), ", ")
  {
    var parts: seq<string> := [];
    if Truthy(location.address.city) {
      parts := parts + [location.address.city.value];
    }
    if Truthy(location.address.state) {
      parts := parts + [location.address.state.value];
    }
    if Truthy(location.address.country) {
      parts := parts + [location.address.country.value];
    }
    assert parts == AddressParts(location.address);
    display := if |parts| > 0 then Join(parts, ", ") else location.name;
  }

  /** With all three parts present the label is "city, state, country". */
  lemma FullAddressLabel(a: Address)
    requires Truthy(a.city) && Truthy(a.state) && Truthy(a.country)
    ensures Join(AddressParts(a), ", ") == a.city.value + ", " + a.state.value + ", " + a.country.value
  {
    JoinSnoc([a.city.value], ", ", a.state.value);
    JoinSnoc([a.city.value, a.state.value], ", ", a.country.value);
    assert [a.city.value] + [a.state.value] == [a.city.value, a.state.value];
    assert [a.city.value, a.state.value] + [a.country.value] == AddressParts(a);
  }

  /** A search is due for a query only when no place is selected and the trimmed query has more than two characters. */
  predicate SearchDue(query: string, selected: bool)
  {
    !selected && |Trim(query)| > 2
  }

  class SearchBox {
    var query: string
    var results: seq<Place>
    var showResults: bool
    var isSearching: bool
    var isLocationSelected: bool
    /** The query of the search the debounce timer will run, if one is scheduled. */
    var scheduled: Option<string>
    const lookup: LocationLookup

    constructor (lookup: LocationLookup)
      ensures this.lookup == lookup
      ensures query == "" && results == [] && !showResults && !isSearching && !isLocationSelected && scheduled == None
    {
      this.lookup := lookup;
      query := "";
      results := [];
      showResults := false;
      isSearching := false;
      isLocationSelected := false;
      scheduled := None;
    }

    /** The effect on the `selectedLocation` prop: a selected place shows its name. */
    method SyncSelected(selectedLocation: Option<Place>)
      modifies this
      ensures selectedLocation.Some? ==>
        query == selectedLocation.value.name && !showResults && isLocationSelected && results == old(results)
      ensures selectedLocation.None? ==> !isLocationSelected && query == old(query) && showResults == old(showResults)
      ensures isSearching == old(isSearching) && scheduled == old(scheduled) && results == old(results)
    {
      if selectedLocation.Some? {
        query := selectedLocation.value.name;
        showResults := false;
        isLocationSelected := true;
      } else {
        isLocationSelected := false;
      }
    }

    /** The effect on the query and the selected flag: cancel the pending
        search, then schedule one when it is due, or clear the drop-down when
        the query is too short. Nothing happens while a place is selected. */
    method QueryChanged()
      modifies this`results, this`showResults, this`isSearching, this`scheduled
      ensures scheduled == (if SearchDue(query, isLocationSelected) then Some(query) else None)
      ensures isLocationSelected ==>
        results == old(results) && showResults == old(showResults) && isSearching == old(isSearching)
      ensures SearchDue(query, isLocationSelected) ==> isSearching && results == old(results) && showResults == old(showResults)
      ensures !isLocationSelected && !SearchDue(query, isLocationSelected) ==> results == [] && !showResults && !isSearching
    {
      scheduled := None;
      if isLocationSelected {
        return;
      }
      var trimmed := Trim(query);
      if |trimmed| > 2 {
        isSearching := true;
        scheduled := Some(query);
      } else {
        results := [];
        showResults := false;
        isSearching := false;
      }
    }

    /** The debounce timer fires for the scheduled query: it goes through the
        hook's `searchLocation`, whose outcome fills or empties the drop-down and
        whose failure message is the one the box shows. No timer runs when
        nothing is scheduled. */
    method SearchCompleted(response: Remote<seq<RawResult>>)
      modifies this, lookup
      ensures query == old(query) && isLocationSelected == old(isLocationSelected) && scheduled == None
      ensures old(scheduled).None? ==>
        results == old(results) && showResults == old(showResults) && isSearching == old(isSearching) &&
        lookup.error == old(lookup.error) && lookup.loading == old(lookup.loading)
      ensures old(scheduled).Some? ==> !isSearching
      ensures old(scheduled).Some? && Trim(old(scheduled).value) != [] && response.Ok? && response.data != [] ==>
        results == FormatResults(response.data) && showResults && lookup.error == None && !lookup.loading
      ensures old(scheduled).Some? && Trim(old(scheduled).value) != [] && (!response.Ok? || response.data == []) ==>
        results == [] && !showResults && lookup.error == Some(SearchFailure(response)) && !lookup.loading
      ensures old(scheduled).Some? && Trim(old(scheduled).value) == [] ==>
        results == [] && !showResults && lookup.error == old(lookup.error) && lookup.loading == old(lookup.loading)
    {
      if scheduled.None? {
        return;
      }
      var outcome := lookup.SearchLocation(scheduled.value, response);
      if outcome.Resolved? {
        results := outcome.value;
        showResults := true;
      } else {
        results := [];
        showResults := false;
      }
      isSearching := false;
      scheduled := None;
    }

    /** A place picked from the drop-down (or the current position): it is
        passed to `onLocationSelect`, shown by name, and the error cleared. */
    method SelectLocation(location: Place) returns (selected: Option<Place>)
      modifies this, lookup`error
      ensures selected == Some(location)
      ensures query == location.name && !showResults && isLocationSelected && lookup.error == None
      ensures results == old(results) && isSearching == old(isSearching) && scheduled == old(scheduled)
    {
      query := location.name;
      showResults := false;
      isLocationSelected := true;
      lookup.ClearError();
      selected := Some(location);
    }

    /** The clear button: everything emptied and `null` passed to `onLocationSelect`. */
    method ClearSelection() returns (selected: Option<Place>)
      modifies this, lookup`error
      ensures selected == None
      ensures query == "" && results == [] && !showResults && !isLocationSelected && lookup.error == None
      ensures isSearching == old(isSearching) && scheduled == old(scheduled)
    {
      query := "";
      results := [];
      showResults := false;
      isLocationSelected := false;
      lookup.ClearError();
      selected := None;
    }

    /** Typing replaces the query and forgets the selection. */
    method Type(text: string)
      modifies this`query, this`isLocationSelected
      ensures query == text && !isLocationSelected
    {
      query := text;
      isLocationSelected := false;
    }

    /** Focusing the input reopens a non-empty drop-down unless a place is selected. */
    method Focus()
      modifies this`showResults
      ensures showResults == (old(showResults) || (|results| > 0 && !isLocationSelected))
    {
      if |results| > 0 && !isLocationSelected {
        showResults := true;
      }
    }

    /** The current-position button: the place found is selected as a picked
        place is; a rejection leaves the box as it was. */
    method UseCurrentLocation(supported: bool, position: PositionOutcome, reverse: Remote<RawResult>, coordinates: string)
      returns (selected: Option<Place>)
      modifies this, lookup
      ensures supported && position.Position? ==>
        selected == Some(if reverse.Ok? then NamedPosition(position.latitude, position.longitude, reverse.data)
                         else UnnamedPosition(position.latitude, position.longitude, coordinates))
      ensures supported && position.Position? ==>
        isLocationSelected && query == selected.value.name && !showResults && lookup.error == None
      ensures supported && position.PositionError? ==>
        selected == None && query == old(query) && isLocationSelected == old(isLocationSelected) &&
        results == old(results) && showResults == old(showResults) &&
        lookup.error == Some(GeolocationMessage(position.code))
      ensures !supported ==>
        selected == None && query == old(query) && isLocationSelected == old(isLocationSelected) &&
        results == old(results) && showResults == old(showResults) && lookup.error == old(lookup.error)
    {
      var found := lookup.GetCurrentLocation(supported, position, reverse, coordinates);
      if found.Resolved? {
        selected := SelectLocation(found.value);
      } else {
        selected := None;
      }
    }
  }

  /** After a place is picked, the query effect schedules no search, however long the name. */
  method PickThenNoSearch(lookup: LocationLookup, location: Place, text: string) returns (box: SearchBox)
    modifies lookup
    ensures box.scheduled == None && box.query == location.name && box.isLocationSelected
  {
    box := new SearchBox(lookup);
    box.Type(text);
    var picked := box.SelectLocation(location);
    box.QueryChanged();
  }
}
