/**
 * The reshaping of SERP API answers (descobridor/discovery/serp_api.py): a
 * SERP entry is given a Google-Places-style geometry, and a whole SERP answer
 * becomes a table of places, either from the main `place_results` entry and
 * the places people also searched for, or from the `local_results` list.
 */
module SerpApi {
  import opened Text
  import opened PyValues
  import HexScan

  // ---------------------------------------------------------------------------
  // _serp_coords_to_geometry, format_serp_entry

  /**
   * `_serp_coords_to_geometry`: the SERP coordinates in the shape the places
   * code reads, `{'location': {'lat': ..., 'lng': ...}}`.
   */
  function CoordsToGeometry(coords: Value): (r: Result<Value>)
    ensures !coords.Mapping? ==> r == Err(TypeError)
    ensures coords.Mapping? && "latitude" !in coords.entries ==> r == Err(KeyError("latitude"))
    ensures coords.Mapping? && "latitude" in coords.entries && "longitude" !in coords.entries ==> r == Err(KeyError("longitude"))
    ensures r.Ok? <==> coords.Mapping? && "latitude" in coords.entries && "longitude" in coords.entries
    ensures r.Ok? ==> HexScan.GetLatLong(r.value) == Ok((coords.entries["latitude"], coords.entries["longitude"]))
  {
    var lat := Field(coords, "latitude");
    if lat.Err? then Err(lat.error)
    else
      var lng := Field(coords, "longitude");
      if lng.Err? then Err(lng.error)
      else Ok(Mapping(map["location" := Mapping(map["lat" := lat.value, "lng" := lng.value])]))
  }

  /** The entry once its geometry is set: the first step of `format_serp_entry`. */
  function GeometrySet(e: HexScan.Row): (r: Result<HexScan.Row>)
    ensures "gps_coordinates" !in e ==> r == Err(KeyError("gps_coordinates"))
    ensures r.Ok? <==> "gps_coordinates" in e && CoordsToGeometry(e["gps_coordinates"]).Ok?
    ensures r.Err? && "gps_coordinates" in e ==> r.error == CoordsToGeometry(e["gps_coordinates"]).error
    ensures r.Ok? ==> r.value == e["geometry" := CoordsToGeometry(e["gps_coordinates"]).value]
  {
    var coords := Lookup(e, "gps_coordinates");
    if coords.Err? then Err(coords.error)
    else
      var geometry := CoordsToGeometry(coords.value);
      if geometry.Err? then Err(geometry.error)
      else Ok(e["geometry" := geometry.value])
  }

  /**
   * What `format_serp_entry` leaves in the entry: the geometry, `name` copied
   * from `title`, and `formatted_address` copied from `address` when only the
   * latter is there. Every other key keeps its value.
   */
  function FormattedEntry(e: HexScan.Row): (r: Result<HexScan.Row>)
    ensures r.Ok? <==> GeometrySet(e).Ok? && "title" in e
    ensures r.Err? ==> r.error == (if GeometrySet(e).Err? then GeometrySet(e).error else KeyError("title"))
    ensures r.Ok? ==> r.value.Keys == e.Keys + {"geometry", "name"} + (if "address" in e then {"formatted_address"} else {})
    ensures r.Ok? ==> r.value["geometry"] == CoordsToGeometry(e["gps_coordinates"]).value && r.value["name"] == e["title"]
    ensures r.Ok? && "formatted_address" in e ==> r.value["formatted_address"] == e["formatted_address"]
    ensures r.Ok? && "formatted_address" !in e && "address" in e ==> r.value["formatted_address"] == e["address"]
    ensures r.Ok? ==> forall k :: k in e && k != "geometry" && k != "name" && k != "formatted_address" ==> r.value[k] == e[k]
  {
    var located := GeometrySet(e);
    if located.Err? then Err(located.error)
    else
      var title := Lookup(located.value, "title");
      if title.Err? then Err(title.error)
      else
        var named := located.value["name" := title.value];
        if "address" in named && "formatted_address" !in named then Ok(named["formatted_address" := named["address"]])
        else Ok(named)
  }

  /** Formatting an already formatted entry changes nothing. */
  lemma FormattedEntryIdempotent(e: HexScan.Row)
    requires FormattedEntry(e).Ok?
    ensures FormattedEntry(FormattedEntry(e).value) == FormattedEntry(e)
  {
    var f := FormattedEntry(e).value;
    assert f["gps_coordinates"] == e["gps_coordinates"];
    assert CoordsToGeometry(f["gps_coordinates"]) == Ok(f["geometry"]);
    assert f["geometry" := f["geometry"]] == f;
    assert GeometrySet(f) == Ok(f);
    assert FormattedEntry(f).Ok?;
    var g := FormattedEntry(f).value;
    assert g.Keys == f.Keys;
    forall k | k in g
      ensures g[k] == f[k]
    {
      if k == "formatted_address" && "formatted_address" !in e {
        assert "address" in e;
        assert f["address"] == e["address"];
      }
    }
    assert g == f;
  }

  /**
   * `format_serp_entry`: sets the geometry, the name and possibly the formatted
   * address in the dict itself and returns the same dict. A missing title is
   * found after the geometry has been written.
   */
  method FormatSerpEntry(entry: Dict) returns (r: Result<Dict>)
    modifies entry
    ensures FormattedEntry(old(entry.entries)).Ok? ==> (
      r == Ok(entry) && entry.entries == FormattedEntry(old(entry.entries)).value)
    ensures FormattedEntry(old(entry.entries)).Err? ==> (
      r == Err(FormattedEntry(old(entry.entries)).error) &&
      entry.entries == if GeometrySet(old(entry.entries)).Ok? then GeometrySet(old(entry.entries)).value else old(entry.entries))
  {
    var coords := Lookup(entry.entries, "gps_coordinates");
    if coords.Err? {
      return Err(coords.error);
    }
    var geometry := CoordsToGeometry(coords.value);
    if geometry.Err? {
      return Err(geometry.error);
    }
    entry.Set("geometry", geometry.value);
    var title := Lookup(entry.entries, "title");
    if title.Err? {
      return Err(title.error);
    }
    entry.Set("name", title.value);
    if "address" in entry.entries && "formatted_address" !in entry.entries {
      entry.Set("formatted_address", entry.entries["address"]);
    }
    r := Ok(entry);
  }

  // ---------------------------------------------------------------------------
  // Shared pieces of the two converters

  /** The six parallel column lists both converters build. */
  datatype PlaceTable = PlaceTable(
    searchMetadata: seq<Value>,
    searchParameters: seq<Value>,
    searchInformation: seq<Value>,
    placeResults: seq<Value>,
    localResults: seq<string>,
    queryParams: seq<string>)

  /** Every column has `n` entries. */
  predicate Aligned(t: PlaceTable, n: nat) {
    |t.searchMetadata| == n && |t.searchParameters| == n && |t.searchInformation| == n
    && |t.placeResults| == n && |t.localResults| == n && |t.queryParams| == n
  }

  /** The values repeated down the columns of a converted answer. */
  datatype Header = Header(metadata: Value, parameters: Value, information: Value, query: string)

  /**
   * The three search fields of the answer and the query label
   * `f"{params['q']}_{params['ll']}"`, looked up in that order.
   */
  function HeaderOf(serp: HexScan.Row, params: HexScan.Row): (r: Result<Header>)
    ensures r.Ok? <==> (
      "search_metadata" in serp && "search_parameters" in serp && "search_information" in serp
      && "q" in params && "ll" in params)
    ensures "search_metadata" !in serp ==> r == Err(KeyError("search_metadata"))
    ensures r.Err? ==> r.error.KeyError?
    ensures r.Ok? ==> (
      r.value.metadata == serp["search_metadata"] && r.value.parameters == serp["search_parameters"]
      && r.value.information == serp["search_information"]
      && r.value.query == Render(params["q"]) + "_" + Render(params["ll"]))
  {
    var metadata := Lookup(serp, "search_metadata");
    if metadata.Err? then Err(metadata.error)
    else
      var parameters := Lookup(serp, "search_parameters");
      if parameters.Err? then Err(parameters.error)
      else
        var information := Lookup(serp, "search_information");
        if information.Err? then Err(information.error)
        else
          var q := Lookup(params, "q");
          if q.Err? then Err(q.error)
          else
            var ll := Lookup(params, "ll");
            if ll.Err? then Err(ll.error)
            else Ok(Header(metadata.value, parameters.value, information.value, Render(q.value) + "_" + Render(ll.value)))
  }

  /**
   * The elements a `for` loop visits, for the values `len` accepts: a list's
   * items, a string's characters, a dict's keys. The keys are strings, and any
   * string fails `['position']` with TypeError whatever its text, so they stand
   * here as empty strings.
   */
  function Iterated(v: Value): (r: Result<seq<Value>>)
    ensures r.Err? <==> !(v.List? || v.Str? || v.Mapping?)
    ensures r.Err? ==> r.error == TypeError
    ensures v.List? ==> r == Ok(v.items)
    ensures v.Str? ==> r.Ok? && |r.value| == |v.s|
    ensures v.Mapping? ==> r.Ok? && |r.value| == |v.entries|
    ensures r.Ok? && !v.List? ==> forall i :: 0 <= i < |r.value| ==> Field(r.value[i], "position") == Err(TypeError)
  {
    match v
    case List(items) => Ok(items)
    case Str(s) => Ok(seq(|s|, i requires 0 <= i < |s| => Str([s[i]])))
    case Mapping(entries) => Ok(Repeat(Str(""), |entries|))
    case _ => Err(TypeError)
  }

  /**
   * The labels `f"{prefix}{entry['position']}"` of the entries in order. The
   * first entry without a position stops the loop with its error.
   */
  function Labels(prefix: string, entries: seq<Value>): (r: Result<seq<string>>)
    ensures r.Ok? <==> forall i :: 0 <= i < |entries| ==> Field(entries[i], "position").Ok?
    ensures r.Ok? ==> (
      |r.value| == |entries|
      && forall i :: 0 <= i < |entries| ==> r.value[i] == prefix + Render(Field(entries[i], "position").value))
    decreases |entries|
  {
    if entries == [] then Ok([])
    else
      var init := entries[..|entries| - 1];
      var last := entries[|entries| - 1];
      var labels := Labels(prefix, init);
      if labels.Err? then
        assert forall i :: 0 <= i < |init| ==> init[i] == entries[i];
        labels
      else
        var position := Field(last, "position");
        if position.Err? then Err(position.error)
        else
          assert forall i :: 0 <= i < |init| ==> init[i] == entries[i];
          Ok(labels.value + [prefix + Render(position.value)])
  }

  /** The error of the labels is that of the first entry without a position. */
  lemma {:induction false} LabelsFirstErr(prefix: string, entries: seq<Value>)
    requires Labels(prefix, entries).Err?
    ensures exists k :: (
      0 <= k < |entries| && Field(entries[k], "position") == Err(Labels(prefix, entries).error)
      && forall j :: 0 <= j < k ==> Field(entries[j], "position").Ok?)
    decreases |entries|
  {
    var init := entries[..|entries| - 1];
    assert forall i :: 0 <= i < |init| ==> init[i] == entries[i];
    if Labels(prefix, init).Err? {
      LabelsFirstErr(prefix, init);
      var k :| 0 <= k < |init| && Field(init[k], "position") == Err(Labels(prefix, init).error)
        && forall j :: 0 <= j < k ==> Field(init[j], "position").Ok?;
      assert Field(entries[k], "position") == Err(Labels(prefix, entries).error);
    } else {
      var k := |entries| - 1;
      assert Field(entries[k], "position") == Err(Labels(prefix, entries).error);
    }
  }

  /** Once a prefix of the entries has no labels, neither have the entries. */
  lemma {:induction false} LabelsErr(prefix: string, entries: seq<Value>, k: nat)
    requires k <= |entries| && Labels(prefix, entries[..k]).Err?
    ensures Labels(prefix, entries) == Labels(prefix, entries[..k])
    decreases |entries| - k
  {
    if k < |entries| {
      assert entries[..k + 1][..k] == entries[..k];
      LabelsErr(prefix, entries, k + 1);
    } else {
      assert entries[..k] == entries;
    }
  }

  /** One more entry: its label is appended, or its error ends the labels. */
  lemma LabelsSnoc(prefix: string, entries: seq<Value>, i: nat)
    requires i < |entries| && Labels(prefix, entries[..i]).Ok?
    ensures var position := Field(entries[i], "position");
      Labels(prefix, entries[..i + 1])
        == if position.Err? then Err(position.error)
           else Ok(Labels(prefix, entries[..i]).value + [prefix + Render(position.value)])
  {
    assert entries[..i + 1][..i] == entries[..i];
  }

  // ---------------------------------------------------------------------------
  // convert_local_results_to_place_results

  /**
   * `convert_local_results_to_place_results`: one row per local result, in
   * order, labelled `ll_{position}`, with the search fields and the query label
   * repeated down the columns.
   */
  function LocalResultsTable(serp: HexScan.Row, params: HexScan.Row): (r: Result<PlaceTable>)
    ensures "local_results" !in serp ==> r == Err(KeyError("local_results"))
    ensures r.Ok? <==> (
      "local_results" in serp && Iterated(serp["local_results"]).Ok? && HeaderOf(serp, params).Ok?
      && Labels("ll_", Iterated(serp["local_results"]).value).Ok?)
    ensures r.Ok? ==> (
      var entries := Iterated(serp["local_results"]).value;
      Aligned(r.value, |entries|) && r.value.placeResults == entries
      && forall i :: 0 <= i < |entries| ==> r.value.localResults[i] == "ll_" + Render(Field(entries[i], "position").value))
    ensures r.Ok? ==> forall i :: 0 <= i < |r.value.queryParams| ==> r.value.queryParams[i] == Render(params["q"]) + "_" + Render(params["ll"])
    ensures r.Ok? ==> (
      forall i :: 0 <= i < |r.value.searchMetadata| ==> (
        r.value.searchMetadata[i] == serp["search_metadata"] && r.value.searchParameters[i] == serp["search_parameters"]
        && r.value.searchInformation[i] == serp["search_information"]))
  {
    var localResults := Lookup(serp, "local_results");
    if localResults.Err? then Err(localResults.error)
    else
      var entries := Iterated(localResults.value);
      if entries.Err? then Err(entries.error)
      else
        var header := HeaderOf(serp, params);
        if header.Err? then Err(header.error)
        else
          var labels := Labels("ll_", entries.value);
          if labels.Err? then Err(labels.error)
          else
            var h, n := header.value, |entries.value|;
            Ok(PlaceTable(Repeat(h.metadata, n), Repeat(h.parameters, n), Repeat(h.information, n),
                          entries.value, labels.value, Repeat(h.query, n)))
  }

  /**
   * The loop both converters run: for each entry in order, append it to the
   * places and its label `f"{prefix}{entry['position']}"` to the labels.
   */
  method AppendLabelled(prefix: string, entries: seq<Value>, places: seq<Value>, labels: seq<string>)
    returns (r: Result<(seq<Value>, seq<string>)>)
    ensures Labels(prefix, entries).Err? ==> r == Err(Labels(prefix, entries).error)
    ensures Labels(prefix, entries).Ok? ==> r == Ok((places + entries, labels + Labels(prefix, entries).value))
  {
    var ps, ls := places, labels;
    ghost var added: seq<string> := [];
    for i := 0 to |entries|
      invariant ps == places + entries[..i]
      invariant Labels(prefix, entries[..i]) == Ok(added) && ls == labels + added
    {
      LabelsSnoc(prefix, entries, i);
      var position := Field(entries[i], "position");
      if position.Err? {
        LabelsErr(prefix, entries, i + 1);
        return Err(position.error);
      }
      AppendStep(entries, places, i);
      ls := ls + [prefix + Render(position.value)];
      ps := ps + [entries[i]];
      added := added + [prefix + Render(position.value)];
    }
    assert entries[..|entries|] == entries;
    r := Ok((ps, ls));
  }

  /** Appending one more entry to the places. */
  lemma AppendStep(entries: seq<Value>, places: seq<Value>, i: nat)
    requires i < |entries|
    ensures places + entries[..i + 1] == (places + entries[..i]) + [entries[i]]
  {
    assert entries[..i + 1] == entries[..i] + [entries[i]];
  }

  /** `convert_local_results_to_place_results`, running the loop from empty columns. */
  method ConvertLocalResultsToPlaceResults(serp: HexScan.Row, params: HexScan.Row) returns (r: Result<PlaceTable>)
    ensures r == LocalResultsTable(serp, params)
  {
    var localResults := Lookup(serp, "local_results");
    if localResults.Err? {
      return Err(localResults.error);
    }
    var entries := Iterated(localResults.value);
    if entries.Err? {
      return Err(entries.error);
    }
    var header := HeaderOf(serp, params);
    if header.Err? {
      return Err(header.error);
    }
    var columns := AppendLabelled("ll_", entries.value, [], []);
    if columns.Err? {
      return Err(columns.error);
    }
    var n := |entries.value|;
    var h := header.value;
    var noPlaces: seq<Value>, noLabels: seq<string> := [], [];
    assert noPlaces + entries.value == entries.value;
    assert noLabels + Labels("ll_", entries.value).value == Labels("ll_", entries.value).value;
    r := Ok(PlaceTable(Repeat(h.metadata, n), Repeat(h.parameters, n), Repeat(h.information, n),
                       columns.value.0, columns.value.1, Repeat(h.query, n)));
  }

  // ---------------------------------------------------------------------------
  // get_all_places_from_place_results

  /** `v[0]` */
  function Index0(v: Value): (r: Result<Value>)
    ensures v.List? ==> r == (if v.items == [] then Err(IndexError) else Ok(v.items[0]))
    ensures r.Ok? ==> v.List? || v.Str?
  {
    match v
    case List(items) => if items == [] then Err(IndexError) else Ok(items[0])
    case Str(s) => if s == "" then Err(IndexError) else Ok(Str([s[0]]))
    case Mapping(_) => Err(KeyError("0"))
    case _ => Err(TypeError)
  }

  /**
   * The places people also searched for, as bound before the table is built:
   * `place_results['people_also_search_for'][0]['local_results']` when the key
   * is there, and `[]` otherwise. Nothing is counted or iterated yet.
   */
  function AlsoSearched(place: Value): (r: Result<Value>)
    ensures place.Mapping? && "people_also_search_for" !in place.entries ==> r == Ok(List([]))
    ensures !(place.Mapping? || place.List? || place.Str?) ==> r == Err(TypeError)
    ensures place.Mapping? && "people_also_search_for" in place.entries ==> (
      var also := place.entries["people_also_search_for"];
      also.List? && also.items != [] && also.items[0].Mapping? && "local_results" in also.items[0].entries
      ==> r == Ok(also.items[0].entries["local_results"]))
  {
    var has := Has(place, "people_also_search_for");
    if has.Err? then Err(has.error)
    else if !has.value then Ok(List([]))
    else
      var also := Field(place, "people_also_search_for");
      if also.Err? then Err(also.error)
      else
        var first := Index0(also.value);
        if first.Err? then Err(first.error)
        else Field(first.value, "local_results")
  }

  /**
   * The columns of `get_all_places_from_place_results` once the also-searched
   * places are counted: the search fields, the query label, the main place
   * labelled `pr`, then each also-searched place labelled `pasf_{position}`.
   */
  function PlaceColumns(serp: HexScan.Row, params: HexScan.Row, place: Value, also: seq<Value>): (r: Result<PlaceTable>)
    ensures r.Ok? <==> HeaderOf(serp, params).Ok? && Labels("pasf_", also).Ok?
    ensures r.Err? && HeaderOf(serp, params).Err? ==> r == Err(HeaderOf(serp, params).error)
    ensures r.Ok? ==>
      Aligned(r.value, |also| + 1) && r.value.placeResults == [place] + also
      && r.value.localResults[0] == "pr"
      && forall i :: 0 <= i < |also| ==> r.value.localResults[i + 1] == "pasf_" + Render(Field(also[i], "position").value)
    ensures r.Ok? ==> forall i :: 0 <= i < |r.value.queryParams| ==> r.value.queryParams[i] == Render(params["q"]) + "_" + Render(params["ll"])
    ensures r.Ok? ==> (
      forall i :: 0 <= i < |r.value.searchMetadata| ==> (
        r.value.searchMetadata[i] == serp["search_metadata"] && r.value.searchParameters[i] == serp["search_parameters"]
        && r.value.searchInformation[i] == serp["search_information"]))
  {
    var header := HeaderOf(serp, params);
    if header.Err? then Err(header.error)
    else
      var labels := Labels("pasf_", also);
      if labels.Err? then Err(labels.error)
      else
        var h, n := header.value, |also| + 1;
        Ok(PlaceTable(Repeat(h.metadata, n), Repeat(h.parameters, n), Repeat(h.information, n),
                      [place] + also, ["pr"] + labels.value, Repeat(h.query, n)))
  }

  /**
   * `get_all_places_from_place_results`. The first column's
   * `[serp_output['search_metadata']]` is read before the also-searched places
   * are counted, and the other search fields after.
   */
  function PlaceResultsTable(serp: HexScan.Row, params: HexScan.Row): (r: Result<PlaceTable>)
    ensures "place_results" !in serp ==> r == Err(KeyError("place_results"))
    ensures "place_results" in serp && AlsoSearched(serp["place_results"]).Ok? && "search_metadata" !in serp ==>
      r == Err(KeyError("search_metadata"))
    ensures r.Ok? <==> (
      "place_results" in serp && AlsoSearched(serp["place_results"]).Ok?
      && Iterated(AlsoSearched(serp["place_results"]).value).Ok? && HeaderOf(serp, params).Ok?
      && Labels("pasf_", Iterated(AlsoSearched(serp["place_results"]).value).value).Ok?)
    ensures r.Ok? ==>
      r == PlaceColumns(serp, params, serp["place_results"], Iterated(AlsoSearched(serp["place_results"]).value).value)
  {
    var place := Lookup(serp, "place_results");
    if place.Err? then Err(place.error)
    else
      var also := AlsoSearched(place.value);
      if also.Err? then Err(also.error)
      else
        var metadata := Lookup(serp, "search_metadata");
        if metadata.Err? then Err(metadata.error)
        else
          var entries := Iterated(also.value);
          if entries.Err? then Err(entries.error)
          else PlaceColumns(serp, params, place.value, entries.value)
  }

  /**
   * An also-searched `local_results` that has no length, in an answer without
   * `search_metadata`: the metadata lookup raises first.
   */
  lemma MetadataBeforeLength(params: HexScan.Row)
    ensures var also := Mapping(map["local_results" := Int(5)]);
      var serp := map["place_results" := Mapping(map["people_also_search_for" := List([also])])];
      PlaceResultsTable(serp, params) == Err(KeyError("search_metadata"))
  {
    var also := Mapping(map["local_results" := Int(5)]);
    var place := Mapping(map["people_also_search_for" := List([also])]);
    assert AlsoSearched(place) == Ok(Int(5));
  }

  /**
   * `get_all_places_from_place_results`: the main place and its label `pr`
   * first, then the loop over the places people also searched for.
   */
  method GetAllPlacesFromPlaceResults(serp: HexScan.Row, params: HexScan.Row) returns (r: Result<PlaceTable>)
    ensures r == PlaceResultsTable(serp, params)
  {
    var place := Lookup(serp, "place_results");
    if place.Err? {
      return Err(place.error);
    }
    var also := AlsoSearched(place.value);
    if also.Err? {
      return Err(also.error);
    }
    var metadata := Lookup(serp, "search_metadata");
    if metadata.Err? {
      return Err(metadata.error);
    }
    var entries := Iterated(also.value);
    if entries.Err? {
      return Err(entries.error);
    }
    var header := HeaderOf(serp, params);
    if header.Err? {
      return Err(header.error);
    }
    var columns := AppendLabelled("pasf_", entries.value, [place.value], ["pr"]);
    if columns.Err? {
      return Err(columns.error);
    }
    var n := |entries.value| + 1;
    var h := header.value;
    r := Ok(PlaceTable(Repeat(h.metadata, n), Repeat(h.parameters, n), Repeat(h.information, n),
                       columns.value.0, columns.value.1, Repeat(h.query, n)));
  }

  // ---------------------------------------------------------------------------
  // format_serp_output

  /** The columns of the formatted SERP output. */
  const OutputColumns: set<string> := {
    "search_metadata", "search_parameters", "search_information", "place_results",
    "local_results", "query_params", "query_ds", "query_dt"}

  /**
   * `pd.DataFrame(table)` followed by the two date columns: one row per place.
   * Columns of different lengths make pandas raise.
   */
  function Frame(t: PlaceTable, queryDs: string, queryDt: Value): (r: Result<seq<HexScan.Row>>)
    ensures r.Ok? <==> Aligned(t, |t.placeResults|)
    ensures r.Err? ==> r.error.ValueError?
    ensures r.Ok? ==> (
      |r.value| == |t.placeResults|
      && forall i :: 0 <= i < |r.value| ==> (
        r.value[i].Keys == OutputColumns && r.value[i]["place_results"] == t.placeResults[i]
        && r.value[i]["local_results"] == Str(t.localResults[i]) && r.value[i]["query_params"] == Str(t.queryParams[i])
        && r.value[i]["search_metadata"] == t.searchMetadata[i]
        && r.value[i]["query_ds"] == Str(queryDs) && r.value[i]["query_dt"] == queryDt))
  {
    var n := |t.placeResults|;
    if !Aligned(t, n) then Err(ValueError("All arrays must be of the same length"))
    else
      Ok(seq(n, i requires 0 <= i < n =>
        map[
          "search_metadata" := t.searchMetadata[i],
          "search_parameters" := t.searchParameters[i],
          "search_information" := t.searchInformation[i],
          "place_results" := t.placeResults[i],
          "local_results" := Str(t.localResults[i]),
          "query_params" := Str(t.queryParams[i]),
          "query_ds" := Str(queryDs),
          "query_dt" := queryDt]))
  }

  /**
   * What `format_serp_output` returns: the table from `place_results` when
   * the answer has one, else from `local_results`, else ValueError. The date
   * and the time of the query are parameters.
   */
  function SerpOutput(params: HexScan.Row, serp: HexScan.Row, queryDs: string, queryDt: Value): (r: Result<seq<HexScan.Row>>)
    ensures r.Ok? ==> (
      forall i :: 0 <= i < |r.value| ==> (
        r.value[i].Keys == OutputColumns && r.value[i]["query_ds"] == Str(queryDs) && r.value[i]["query_dt"] == queryDt))
    ensures "place_results" !in serp && "local_results" !in serp ==> (
      r == Err(ValueError("Unexpected SERP output: " + Render(Mapping(serp)))))
    ensures "place_results" in serp ==> (
      && (r.Ok? <==> PlaceResultsTable(serp, params).Ok?)
      && (r.Err? ==> r == Err(PlaceResultsTable(serp, params).error))
      && (r.Ok? ==> (
        |r.value| == |PlaceResultsTable(serp, params).value.placeResults|
        && r.value[0]["place_results"] == serp["place_results"] && r.value[0]["local_results"] == Str("pr"))))
    ensures "place_results" !in serp && "local_results" in serp ==> (
      && (r.Ok? <==> LocalResultsTable(serp, params).Ok?)
      && (r.Err? ==> r == Err(LocalResultsTable(serp, params).error))
      && (r.Ok? ==> |r.value| == |LocalResultsTable(serp, params).value.placeResults|))
  {
    var table :=
      if "place_results" in serp then PlaceResultsTable(serp, params)
      else if "local_results" in serp then LocalResultsTable(serp, params)
      else Err(ValueError("Unexpected SERP output: " + Render(Mapping(serp))));
    if table.Err? then Err(table.error)
    else Frame(table.value, queryDs, queryDt)
  }

  /** With `place_results` present, the answer's `local_results` play no part. */
  lemma PlaceResultsFirst(params: HexScan.Row, serp: HexScan.Row, queryDs: string, queryDt: Value)
    requires "place_results" in serp
    ensures SerpOutput(params, serp, queryDs, queryDt) == SerpOutput(params, serp - {"local_results"}, queryDs, queryDt)
  {
    var other := serp - {"local_results"};
    assert Lookup(other, "place_results") == Lookup(serp, "place_results");
    assert HeaderOf(other, params) == HeaderOf(serp, params) by {
      assert Lookup(other, "search_metadata") == Lookup(serp, "search_metadata");
      assert Lookup(other, "search_parameters") == Lookup(serp, "search_parameters");
      assert Lookup(other, "search_information") == Lookup(serp, "search_information");
    }
    assert PlaceResultsTable(other, params) == PlaceResultsTable(serp, params);
  }

  /** `format_serp_output`: build the table with the matching converter, then the frame. */
  method FormatSerpOutput(params: HexScan.Row, serp: HexScan.Row, queryDs: string, queryDt: Value)
    returns (r: Result<seq<HexScan.Row>>)
    ensures r == SerpOutput(params, serp, queryDs, queryDt)
  {
    var table: Result<PlaceTable>;
    if "place_results" in serp {
      table := GetAllPlacesFromPlaceResults(serp, params);
    } else if "local_results" in serp {
      table := ConvertLocalResultsToPlaceResults(serp, params);
    } else {
      return Err(ValueError("Unexpected SERP output: " + Render(Mapping(serp))));
    }
    if table.Err? {
      return Err(table.error);
    }
    r := Frame(table.value, queryDs, queryDt);
  }
}
