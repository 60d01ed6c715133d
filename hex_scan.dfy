/** `places_output_schema`: the columns of the places collection. */
module PlacesSchema {
  /** The columns of the places collection. */
  const PlacesOutputSchema: set<string> := {
    "formatted_address", "name", "place_id", "types_en", "loc_hex7", "loc_hex9", "coords",
    "search_hex7", "search_hex9", "search_query", "query_ds", "reviews_extracted_local_lang",
    "review_extr_ds_local_lang", "reviews_extracted_en", "review_extr_ds_en", "permanent_closed",
    "data_id", "all_queries", "priority", "unserpable", "added_at"
  }

  /**
   * The schema holds 21 distinct names. They are counted by length: seven of
   * eight characters, five of eleven or seventeen, and nine of other lengths.
   */
  lemma SchemaSize()
    ensures |PlacesOutputSchema| == 21
  {
    CountLength8();
    CountLength11Or17();
    CountOtherLengths();
    DisjointCard(Length8(), Length11Or17());
    DisjointCard(Length8() + Length11Or17(), OtherLengths());
    SchemaByLength();
  }

  lemma SchemaByLength()
    ensures PlacesOutputSchema == Length8() + Length11Or17() + OtherLengths()
  {
  }

  lemma DisjointCard<T>(a: set<T>, b: set<T>)
    requires a !! b
    ensures |a + b| == |a| + |b|
  {
  }

  ghost function Length8(): set<string> {
    {"place_id", "types_en", "loc_hex7", "loc_hex9", "query_ds", "priority", "added_at"}
  }

  ghost function Length11Or17(): set<string> {
    {"search_hex7", "search_hex9", "all_queries", "formatted_address", "review_extr_ds_en"}
  }

  ghost function OtherLengths(): set<string> {
    {"name", "coords", "search_query", "reviews_extracted_local_lang", "review_extr_ds_local_lang",
     "reviews_extracted_en", "permanent_closed", "data_id", "unserpable"}
  }

  lemma CountLength8()
    ensures |Length8()| == 7 && forall x :: x in Length8() ==> |x| == 8
  {
  }

  lemma CountLength11Or17()
    ensures |Length11Or17()| == 5 && forall x :: x in Length11Or17() ==> |x| == 11 || |x| == 17
  {
  }

  lemma CountOtherLengths()
    ensures |OtherLengths()| == 9
    ensures forall x :: x in OtherLengths() ==> |x| != 8 && |x| != 11 && |x| != 17
  {
  }

  /** The three keys the helpers default belong to the schema; `types` and `geometry` do not. */
  lemma SchemaFacts()
    ensures "types_en" in PlacesOutputSchema && "priority" in PlacesOutputSchema
      && "unserpable" in PlacesOutputSchema
    ensures "geometry" !in PlacesOutputSchema && "types" !in PlacesOutputSchema
  {
  }
}

/**
 * Searching a hexagon for places and shaping the place records: the page loop
 * of `scan_hex`, the location and bookkeeping columns it adds, the de-duplication
 * by place id, and the helpers that fill defaults into a place dict and keep the
 * keys of the places schema.
 *
 * A data frame is a sequence of rows, each row a map from column name to value;
 * a column a row lacks is a missing value (NaN).
 */
module HexScan {
  import opened Text
  import opened PyValues
  import opened PlacesSchema

  type Row = map<string, Value>

  // ---------------------------------------------------------------------------
  // places_output_schema and the place-dict helpers

  /**
   * The dict `handle_place_types` leaves: `types` renamed to `types_en`, or an
   * empty `types_en` (replacing any earlier one) when there is no `types`.
   */
  function TypesHandled(e: Row): (r: Row)
    ensures "types" !in r && "types_en" in r
    ensures r["types_en"] == if "types" in e then e["types"] else List([])
    ensures forall k :: k in e && k != "types" && k != "types_en" ==> k in r && r[k] == e[k]
    ensures forall k :: k in r ==> k == "types_en" || (k in e && k != "types")
  {
    if "types" in e then e["types_en" := e["types"]] - {"types"}
    else e["types_en" := List([])]
  }

  /** A second call finds no `types` and empties the `types_en` the first one moved there. */
  lemma TypesHandledTwice(e: Row)
    ensures TypesHandled(TypesHandled(e))["types_en"] == List([])
    ensures TypesHandled(TypesHandled(e)) == TypesHandled(e)["types_en" := List([])]
  {
  }

  /** `handle_place_types` */
  method HandlePlaceTypes(place: Dict)
    modifies place
    ensures place.entries == TypesHandled(old(place.entries))
  {
    if "types" in place.entries {
      place.Set("types_en", place.entries["types"]);
      var moved := place.Pop("types");
    } else {
      place.Set("types_en", List([]));
    }
  }

  /** The dict with `key` set to `v` unless it already holds `key`. */
  function WithDefault(e: Row, key: string, v: Value): (r: Row)
    ensures key in r && r[key] == if key in e then e[key] else v
    ensures forall k :: k != key ==> (k in r <==> k in e)
    ensures forall k :: k in e ==> k in r && r[k] == e[k]
  {
    if key in e then e else e[key := v]
  }

  /** Defaulting twice is defaulting once. */
  lemma WithDefaultIdempotent(e: Row, key: string, v: Value)
    ensures WithDefault(WithDefault(e, key, v), key, v) == WithDefault(e, key, v)
  {
  }

  /** `add_default_priority` */
  method AddDefaultPriority(place: Dict)
    modifies place
    ensures place.entries == WithDefault(old(place.entries), "priority", Int(1))
  {
    if "priority" !in place.entries {
      place.Set("priority", Int(1));
    }
  }

  /** `add_default_unserpable` */
  method AddDefaultUnserpable(place: Dict)
    modifies place
    ensures place.entries == WithDefault(old(place.entries), "unserpable", Bool(false))
  {
    if "unserpable" !in place.entries {
      place.Set("unserpable", Bool(false));
    }
  }

  /** The place dict after the three helpers. */
  function Defaulted(e: Row): Row {
    WithDefault(WithDefault(TypesHandled(e), "priority", Int(1)), "unserpable", Bool(false))
  }

  /** The entries `format_places_df` keeps: those of the schema, and `geometry`. */
  function KeepSchema(e: Row): (r: Row)
    ensures forall k :: k in r <==> k in e && (k in PlacesOutputSchema || k == "geometry")
    ensures forall k :: k in r ==> r[k] == e[k]
  {
    map k | k in e && (k in PlacesOutputSchema || k == "geometry") :: e[k]
  }

  /**
   * After the helpers, the three defaulted keys always pass the schema filter,
   * `types` never does, and existing priority and unserpable values are kept.
   */
  lemma DefaultedKeysSurvive(e: Row)
    ensures var f := KeepSchema(Defaulted(e));
      "types_en" in f && "priority" in f && "unserpable" in f && "types" !in f
      && f["types_en"] == (if "types" in e then e["types"] else List([]))
      && f["priority"] == (if "priority" in e then e["priority"] else Int(1))
      && f["unserpable"] == (if "unserpable" in e then e["unserpable"] else Bool(false))
  {
    SchemaFacts();
    var t := TypesHandled(e);
    assert "priority" in t <==> "priority" in e;
    assert "unserpable" in t <==> "unserpable" in e;
  }

  // ---------------------------------------------------------------------------
  // _get_lat_long, _add_location_columns

  /** `_get_lat_long`: the latitude and longitude under `location`. */
  function GetLatLong(geometry: Value): (r: Result<(Value, Value)>)
    ensures r.Ok? <==> (
      Field(geometry, "location").Ok?
      && Field(Field(geometry, "location").value, "lat").Ok?
      && Field(Field(geometry, "location").value, "lng").Ok?)
    ensures r.Ok? ==> (
      var location := Field(geometry, "location").value;
      r.value == (Field(location, "lat").value, Field(location, "lng").value))
  {
    var location := Field(geometry, "location");
    if location.Err? then Err(location.error)
    else
      var lat := Field(location.value, "lat");
      if lat.Err? then Err(lat.error)
      else
        var lng := Field(location.value, "lng");
        if lng.Err? then Err(lng.error)
        else Ok((lat.value, lng.value))
  }

  /** The name of a column tagged with the sub-hexagon resolution, as in `hex9`. */
  function HexColumn(prefix: string, resolution: int): string {
    prefix + IntToString(resolution)
  }

  /** A tagged column name differs from any name with another first letter. */
  lemma HexColumnDiffers(prefix: string, resolution: int, other: string)
    requires prefix != "" && other != "" && other[0] != prefix[0]
    ensures HexColumn(prefix, resolution) != other
  {
    assert HexColumn(prefix, resolution)[0] == prefix[0];
  }

  /** `loc_hex{size}` is `loc_hex7` only at resolution 7, where both hold the same cell. */
  lemma LocHexIsLocHex7Only(subHexSize: int)
    ensures HexColumn("loc_hex", subHexSize) == "loc_hex7" ==> subHexSize == 7
  {
    if HexColumn("loc_hex", subHexSize) == "loc_hex7" {
      var c := HexColumn("loc_hex", subHexSize);
      assert IntToString(subHexSize) == c[7..] == "7";
      ParseIntToString(subHexSize);
      ParseIntToString(7);
      assert IntToString(7) == [DigitChar(7)] == "7";
    }
  }

  /**
   * One row of `_add_location_columns`: the coordinates pair replaces the
   * geometry, and the cells containing it at the sub-hexagon resolution and at
   * resolution 7 are added. A row without a geometry holds NaN there, which
   * cannot be indexed.
   */
  function LocatedRow(row: Row, searchHex7: Value, subHexSize: int, cell: (Value, Value, int) -> Value): (r: Result<Row>)
    ensures r.Ok? <==> "geometry" in row && GetLatLong(row["geometry"]).Ok?
    ensures r.Ok? ==> (
      var (lat, lng) := GetLatLong(row["geometry"]).value;
      "geometry" !in r.value && "coords" in r.value && "search_hex7" in r.value && "loc_hex7" in r.value
      && r.value["coords"] == List([lat, lng])
      && HexColumn("loc_hex", subHexSize) in r.value
      && r.value[HexColumn("loc_hex", subHexSize)] == cell(lat, lng, subHexSize)
      && r.value["search_hex7"] == searchHex7
      && r.value["loc_hex7"] == cell(lat, lng, 7))
    ensures r.Ok? ==> r.value.Keys == row.Keys - {"geometry"} + {"coords", HexColumn("loc_hex", subHexSize), "search_hex7", "loc_hex7"}
    ensures r.Ok? ==> forall k :: k in row && k !in {"geometry", "coords", HexColumn("loc_hex", subHexSize), "search_hex7", "loc_hex7"} ==>
      r.value[k] == row[k]
  {
    if "geometry" !in row then Err(TypeError)
    else
      var coords := GetLatLong(row["geometry"]);
      if coords.Err? then Err(coords.error)
      else
        var (lat, lng) := coords.value;
        HexColumnDiffers("loc_hex", subHexSize, "geometry");
        HexColumnDiffers("loc_hex", subHexSize, "coords");
        HexColumnDiffers("loc_hex", subHexSize, "search_hex7");
        LocHexIsLocHex7Only(subHexSize);
        Ok((row - {"geometry"})["coords" := List([lat, lng])]
                               [HexColumn("loc_hex", subHexSize) := cell(lat, lng, subHexSize)]
                               ["search_hex7" := searchHex7]
                               ["loc_hex7" := cell(lat, lng, 7)])
  }

  /** The rows, each located; the first row that fails decides the error. */
  function LocatedRows(rows: seq<Row>, searchHex7: Value, subHexSize: int, cell: (Value, Value, int) -> Value): (r: Result<seq<Row>>)
    ensures r.Ok? <==> forall i :: 0 <= i < |rows| ==> LocatedRow(rows[i], searchHex7, subHexSize, cell).Ok?
    ensures r.Ok? ==> (
      |r.value| == |rows|
      && forall i :: 0 <= i < |rows| ==> r.value[i] == LocatedRow(rows[i], searchHex7, subHexSize, cell).value)
  {
    if rows == [] then Ok([])
    else
      var first := LocatedRow(rows[0], searchHex7, subHexSize, cell);
      var rest := LocatedRows(rows[1..], searchHex7, subHexSize, cell);
      if first.Err? then Err(first.error)
      else if rest.Err? then rest
      else Ok([first.value] + rest.value)
  }

  /**
   * `_add_location_columns`: with no geometry column at all the attribute
   * lookup fails; otherwise every row is located.
   */
  function AddLocationColumns(rows: seq<Row>, searchHex7: Value, subHexSize: int, cell: (Value, Value, int) -> Value): (r: Result<seq<Row>>)
    ensures (forall i :: 0 <= i < |rows| ==> "geometry" !in rows[i]) ==> r == Err(AttributeError("geometry"))
    ensures r.Ok? ==> r == LocatedRows(rows, searchHex7, subHexSize, cell)
  {
    if forall i :: 0 <= i < |rows| ==> "geometry" !in rows[i] then Err(AttributeError("geometry"))
    else LocatedRows(rows, searchHex7, subHexSize, cell)
  }

  // ---------------------------------------------------------------------------
  // _add_query_boilerplate

  /** One row of `_add_query_boilerplate`, given today's date and the current time. */
  function BoilerplateRow(row: Row, query: Value, dataId: Value, today: string, now: Value): Row {
    row["query" := query]["query_ds" := Str(today)]
       ["reviews_extracted_local_lang" := Bool(false)]["review_extr_ds_local_lang" := Null]
       ["reviews_extracted_en" := Bool(false)]["review_extr_ds_en" := Null]
       ["data_id" := dataId]["added_at" := now]["all_queries" := List([query])]
  }

  /** The columns `_add_query_boilerplate` sets. */
  const BoilerplateColumns: set<string> := {
    "query", "query_ds", "reviews_extracted_local_lang", "review_extr_ds_local_lang",
    "reviews_extracted_en", "review_extr_ds_en", "data_id", "added_at", "all_queries"
  }

  /**
   * `_add_query_boilerplate`: on every row both extraction flags are False, both
   * extraction dates None, `all_queries` the one-element list of the query, and
   * every other column is as it was.
   */
  function AddQueryBoilerplate(rows: seq<Row>, query: Value, dataId: Value, today: string, now: Value): (r: seq<Row>)
    ensures |r| == |rows|
    ensures forall i :: 0 <= i < |rows| ==> r[i].Keys == rows[i].Keys + BoilerplateColumns
    ensures forall i :: 0 <= i < |rows| ==> (
      r[i]["reviews_extracted_local_lang"] == Bool(false) && r[i]["reviews_extracted_en"] == Bool(false)
      && r[i]["review_extr_ds_local_lang"] == Null && r[i]["review_extr_ds_en"] == Null
      && r[i]["all_queries"] == List([query]) && r[i]["query"] == query && r[i]["data_id"] == dataId)
    ensures forall i, k :: 0 <= i < |rows| && k in rows[i] && k !in BoilerplateColumns ==> r[i][k] == rows[i][k]
  {
    seq(|rows|, i requires 0 <= i < |rows| => BoilerplateRow(rows[i], query, dataId, today, now))
  }

  // ---------------------------------------------------------------------------
  // format_places_df

  /** The schema filter lets the geometry of the place through untouched. */
  lemma KeptGeometry(e: Row)
    ensures var kept := KeepSchema(Defaulted(e));
      ("geometry" in kept <==> "geometry" in e) && ("geometry" in e ==> kept["geometry"] == e["geometry"])
  {
    var d := Defaulted(e);
    assert "geometry" in d <==> "geometry" in e;
  }

  /** Locating a frame of one row. */
  lemma OneRowLocated(row: Row, searchHex7: Value, subHexSize: int, cell: (Value, Value, int) -> Value)
    ensures AddLocationColumns([row], searchHex7, subHexSize, cell)
      == if "geometry" !in row then Err(AttributeError("geometry"))
         else if LocatedRow(row, searchHex7, subHexSize, cell).Err? then Err(LocatedRow(row, searchHex7, subHexSize, cell).error)
         else Ok([LocatedRow(row, searchHex7, subHexSize, cell).value])
  {
    assert [row][1..] == [] && [row][0] == row;
    if "geometry" in row {
      assert !(forall i :: 0 <= i < |[row]| ==> "geometry" !in [row][i]);
      var first := LocatedRow(row, searchHex7, subHexSize, cell);
      assert LocatedRows([], searchHex7, subHexSize, cell) == Ok([]);
      if first.Ok? {
        assert [first.value] + [] == [first.value];
      }
    }
  }

  lemma LocationNotBoilerplate()
    ensures "search_hex7" !in BoilerplateColumns && "coords" !in BoilerplateColumns
    ensures "geometry" !in BoilerplateColumns
  {
  }

  /**
   * The row `format_places_df` returns holds the three defaulted columns, the
   * coordinates instead of the geometry, no search hexagon, the given data id,
   * and no query.
   */
  lemma PlacesRowColumns(e: Row, dataId: Value, subHexSize: int, cell: (Value, Value, int) -> Value,
                         today: string, now: Value)
    requires PlacesRow(e, dataId, subHexSize, cell, today, now).Ok?
    ensures var row := PlacesRow(e, dataId, subHexSize, cell, today, now).value[0];
      "types_en" in row && "priority" in row && "unserpable" in row && "coords" in row && "geometry" !in row
      && row["data_id"] == dataId && row["search_hex7"] == Null && row["all_queries"] == List([Null])
  {
    var kept := KeepSchema(Defaulted(e));
    DefaultedKeysSurvive(e);
    KeptGeometry(e);
    OneRowLocated(kept, Null, subHexSize, cell);
    var l := LocatedRow(kept, Null, subHexSize, cell).value;
    assert "types_en" in l && "priority" in l && "unserpable" in l;
    LocationNotBoilerplate();
    var stamped := AddQueryBoilerplate([l], Null, dataId, today, now);
    assert PlacesRow(e, dataId, subHexSize, cell, today, now).value == stamped;
    assert stamped[0].Keys == l.Keys + BoilerplateColumns;
  }

  /** What `format_places_df` returns for a place dict: a frame of one row. */
  function PlacesRow(e: Row, dataId: Value, subHexSize: int, cell: (Value, Value, int) -> Value,
                     today: string, now: Value): (r: Result<seq<Row>>)
    ensures r.Ok? <==> "geometry" in e && GetLatLong(e["geometry"]).Ok?
    ensures r.Ok? ==> |r.value| == 1
  {
    var kept := KeepSchema(Defaulted(e));
    KeptGeometry(e);
    OneRowLocated(kept, Null, subHexSize, cell);
    var located := AddLocationColumns([kept], Null, subHexSize, cell);
    if located.Err? then Err(located.error)
    else Ok(AddQueryBoilerplate(located.value, Null, dataId, today, now))
  }

  /**
   * `format_places_df`: the helpers change the place dict in place, then the
   * kept entries become a one-row frame with the location and bookkeeping columns.
   */
  method FormatPlacesDf(place: Dict, dataId: Value, subHexSize: int, cell: (Value, Value, int) -> Value,
                        today: string, now: Value) returns (r: Result<seq<Row>>)
    modifies place
    ensures place.entries == Defaulted(old(place.entries))
    ensures r == PlacesRow(old(place.entries), dataId, subHexSize, cell, today, now)
  {
    HandlePlaceTypes(place);
    AddDefaultPriority(place);
    AddDefaultUnserpable(place);
    var kept := KeepSchema(place.entries);
    var located := AddLocationColumns([kept], Null, subHexSize, cell);
    if located.Err? {
      return Err(located.error);
    }
    r := Ok(AddQueryBoilerplate(located.value, Null, dataId, today, now));
  }

  // ---------------------------------------------------------------------------
  // scan_hex: pages

  /** `pd.DataFrame(v)` for a list of dicts: one row per dict. */
  function RowsOf(v: Value): (r: Result<seq<Row>>)
    ensures r.Ok? ==> (
      v.List? && |r.value| == |v.items|
      && forall i :: 0 <= i < |v.items| ==> v.items[i] == Mapping(r.value[i]))
  {
    if v.List? && forall i :: 0 <= i < |v.items| ==> v.items[i].Mapping? then
      Ok(seq(|v.items|, i requires 0 <= i < |v.items| => v.items[i].entries))
    else Err(TypeError)
  }

  /** The rows of an answer's `results`. */
  function PageRows(page: Row): Result<seq<Row>> {
    if "results" !in page then Err(KeyError("results")) else RowsOf(page["results"])
  }

  /** What pandas raises when a scalar is assigned to a new column of a frame without rows. */
  const NoIndexScalar := "cannot set a frame with no defined index and a scalar"

  /**
   * `df.loc[:, column] = v` with a scalar `v`, on a frame built from `rows`: every
   * row gets the column; a frame without rows has no index to spread the scalar
   * over, so it raises.
   */
  function Tagged(rows: seq<Row>, column: string, v: Value): (r: Result<seq<Row>>)
    ensures r.Err? <==> rows == []
    ensures r.Err? ==> r.error == ValueError(NoIndexScalar)
    ensures r.Ok? ==> |r.value| == |rows| && forall i :: 0 <= i < |rows| ==> r.value[i] == rows[i][column := v]
  {
    if rows == [] then Err(ValueError(NoIndexScalar))
    else Ok(seq(|rows|, i requires 0 <= i < |rows| => rows[i][column := v]))
  }

  /** The pages so far followed by those of `r`, or the error of `r`. */
  function Then(pages: seq<seq<Row>>, r: Result<seq<seq<Row>>>): Result<seq<seq<Row>>> {
    if r.Err? then Err(r.error) else Ok(pages + r.value)
  }

  /** Moving one page from the continuation to the pages so far. */
  lemma ThenShift(pages: seq<seq<Row>>, page: seq<Row>, rest: Result<seq<seq<Row>>>)
    ensures Then(pages, Then([page], rest)) == Then(pages + [page], rest)
  {
    if rest.Ok? {
      assert pages + ([page] + rest.value) == (pages + [page]) + rest.value;
    }
  }

  /**
   * The follow-up pages of one sub-hexagon: at most `count` answers fetched by
   * token; an answer without a further token is dropped and ends the run.
   */
  function FollowPages(next: Value -> Row, token: Value, count: nat, column: string, hind: string): (r: Result<seq<seq<Row>>>)
    ensures r.Ok? ==> |r.value| <= count
    ensures r.Ok? ==> forall p :: 0 <= p < |r.value| ==> r.value[p] != []
    ensures r.Ok? ==> forall p, i :: 0 <= p < |r.value| && 0 <= i < |r.value[p]| ==>
      column in r.value[p][i] && r.value[p][i][column] == Str(hind)
    ensures count > 0 && PageRows(next(token)).Err? ==> r == Err(PageRows(next(token)).error)
    ensures count > 0 && PageRows(next(token)) == Ok([]) ==> r == Err(ValueError(NoIndexScalar))
    ensures count > 0 && PageRows(next(token)).Ok? && PageRows(next(token)).value != [] && "next_page_token" !in next(token) ==>
      r == Ok([])
    ensures r.Ok? && |r.value| > 0 ==>
      count > 0 && "next_page_token" in next(token) && PageRows(next(token)).Ok?
      && r.value[0] == Tagged(PageRows(next(token)).value, column, Str(hind)).value
    decreases count
  {
    if count == 0 then Ok([])
    else
      var page := next(token);
      var rows := PageRows(page);
      if rows.Err? then Err(rows.error)
      else
        var df := Tagged(rows.value, column, Str(hind));
        if df.Err? then Err(df.error)
        else if "next_page_token" !in page then Ok([])
        else Then([df.value], FollowPages(next, page["next_page_token"], count - 1, column, hind))
  }

  /** How many follow-up pages `range(n_pages - 1)` allows. */
  function FollowUps(nPages: int): nat {
    if nPages > 1 then nPages - 1 else 0
  }

  /**
   * The pages of one sub-hexagon: the first answer, tagged with the sub-hexagon
   * in the `hex` column, whose token is required, then its follow-up pages,
   * tagged in the `search_hex` column.
   */
  function SubHexPages(first: string -> Row, next: Value -> Row, hind: string, nPages: int, subHexSize: int): (r: Result<seq<seq<Row>>>)
    ensures r.Ok? ==> 1 <= |r.value| <= if nPages > 1 then nPages else 1
    ensures PageRows(first(hind)) == Ok([]) ==> r == Err(ValueError(NoIndexScalar))
    ensures PageRows(first(hind)).Ok? && PageRows(first(hind)).value != [] && "next_page_token" !in first(hind) ==>
      r == Err(KeyError("next_page_token"))
  {
    var page := first(hind);
    var rows := PageRows(page);
    if rows.Err? then Err(rows.error)
    else
      var df := Tagged(rows.value, HexColumn("hex", subHexSize), Str(hind));
      if df.Err? then Err(df.error)
      else if "next_page_token" !in page then Err(KeyError("next_page_token"))
      else
        Then([df.value],
             FollowPages(next, page["next_page_token"], FollowUps(nPages), HexColumn("search_hex", subHexSize), hind))
  }

  /** The pages of the sub-hexagons in order; the first one that raises decides the error. */
  function ScanPages(first: string -> Row, next: Value -> Row, subHexes: seq<string>, nPages: int, subHexSize: int): (r: Result<seq<seq<Row>>>)
    ensures r.Ok? ==> |subHexes| <= |r.value| <= |subHexes| * (if nPages > 1 then nPages else 1)
  {
    if subHexes == [] then Ok([])
    else
      var init := ScanPages(first, next, subHexes[..|subHexes| - 1], nPages, subHexSize);
      var m := if nPages > 1 then nPages else 1;
      assert |subHexes| * m == (|subHexes| - 1) * m + m;
      if init.Err? then init
      else Then(init.value, SubHexPages(first, next, subHexes[|subHexes| - 1], nPages, subHexSize))
  }

  /** `pd.concat` of the pages: their rows in order. */
  function Concat(pages: seq<seq<Row>>): seq<Row> {
    if pages == [] then [] else Concat(pages[..|pages| - 1]) + pages[|pages| - 1]
  }

  // ---------------------------------------------------------------------------
  // scan_hex: de-duplication

  /** What `drop_duplicates` compares: the place id, all missing ids being equal. */
  function PlaceKey(row: Row): Option<Value> {
    if "place_id" in row then Some(row["place_id"]) else None
  }

  /** The place ids that occur in the rows. */
  function Keys(rows: seq<Row>): set<Option<Value>> {
    if rows == [] then {} else Keys(rows[..|rows| - 1]) + {PlaceKey(rows[|rows| - 1])}
  }

  lemma {:induction false} KeysOf(rows: seq<Row>, k: Option<Value>)
    ensures k in Keys(rows) <==> exists i :: 0 <= i < |rows| && PlaceKey(rows[i]) == k
    decreases |rows|
  {
    if rows != [] {
      var init := rows[..|rows| - 1];
      KeysOf(init, k);
      assert forall i :: 0 <= i < |init| ==> init[i] == rows[i];
      if k in Keys(init) {
        var i :| 0 <= i < |init| && PlaceKey(init[i]) == k;
        assert PlaceKey(rows[i]) == k;
      }
    }
  }

  /** The row at `i` is the first with its place id. */
  predicate IsFirst(rows: seq<Row>, i: int)
    requires 0 <= i < |rows|
  {
    forall k :: 0 <= k < i ==> PlaceKey(rows[k]) != PlaceKey(rows[i])
  }

  /**
   * `drop_duplicates('place_id')`: the rows whose place id has not appeared
   * before. The same ids remain, each once.
   */
  function DropDuplicates(rows: seq<Row>): (r: seq<Row>)
    ensures Keys(r) == Keys(rows)
    ensures forall i, j :: 0 <= i < j < |r| ==> PlaceKey(r[i]) != PlaceKey(r[j])
  {
    if rows == [] then []
    else
      var init := rows[..|rows| - 1];
      var last := rows[|rows| - 1];
      var kept := DropDuplicates(init);
      if PlaceKey(last) in Keys(init) then kept
      else
        KeepNewKey(kept, last);
        kept + [last]
  }

  /** Appending a row with an unseen place id keeps the ids distinct and adds its id. */
  lemma KeepNewKey(kept: seq<Row>, last: Row)
    requires forall i, j :: 0 <= i < j < |kept| ==> PlaceKey(kept[i]) != PlaceKey(kept[j])
    requires PlaceKey(last) !in Keys(kept)
    ensures Keys(kept + [last]) == Keys(kept) + {PlaceKey(last)}
    ensures forall i, j :: 0 <= i < j < |kept| + 1 ==> PlaceKey((kept + [last])[i]) != PlaceKey((kept + [last])[j])
  {
    var r := kept + [last];
    assert r[..|kept|] == kept;
    forall i, j | 0 <= i < j < |r| ensures PlaceKey(r[i]) != PlaceKey(r[j]) {
      if j == |kept| {
        KeysOf(kept, PlaceKey(kept[i]));
      }
    }
  }

  /** De-duplication keeps rows of the input only. */
  lemma {:induction false} DropDuplicatesSubset(rows: seq<Row>)
    ensures forall j :: 0 <= j < |DropDuplicates(rows)| ==> DropDuplicates(rows)[j] in rows
    decreases |rows|
  {
    if rows != [] {
      var init := rows[..|rows| - 1];
      DropDuplicatesSubset(init);
      assert rows == init + [rows[|rows| - 1]];
    }
  }

  /** De-duplication keeps the first row of every place id. */
  lemma {:induction false} DropDuplicatesKeepsFirst(rows: seq<Row>)
    ensures forall i :: 0 <= i < |rows| && IsFirst(rows, i) ==> rows[i] in DropDuplicates(rows)
    decreases |rows|
  {
    if rows != [] {
      var init := rows[..|rows| - 1];
      var last := rows[|rows| - 1];
      DropDuplicatesKeepsFirst(init);
      forall i | 0 <= i < |rows| && IsFirst(rows, i) ensures rows[i] in DropDuplicates(rows) {
        if i < |init| {
          FirstOfInit(rows, i);
          assert rows[i] == init[i];
        } else {
          LastFirstIsNew(rows);
        }
      }
    }
  }

  lemma FirstOfInit(rows: seq<Row>, i: nat)
    requires i < |rows| - 1
    ensures IsFirst(rows[..|rows| - 1], i) <==> IsFirst(rows, i)
  {
    var init := rows[..|rows| - 1];
    assert forall k :: 0 <= k <= i ==> init[k] == rows[k];
  }

  lemma LastFirstIsNew(rows: seq<Row>)
    requires rows != []
    ensures IsFirst(rows, |rows| - 1) <==> PlaceKey(rows[|rows| - 1]) !in Keys(rows[..|rows| - 1])
  {
    var init, last := rows[..|rows| - 1], rows[|rows| - 1];
    KeysOf(init, PlaceKey(last));
    assert forall k :: 0 <= k < |init| ==> init[k] == rows[k];
  }

  /** The positions of the rows whose place id has not appeared before, in increasing order. */
  function FirstIndices(rows: seq<Row>): (r: seq<int>)
    ensures forall j :: 0 <= j < |r| ==> 0 <= r[j] < |rows|
    ensures forall i, j :: 0 <= i < j < |r| ==> r[i] < r[j]
  {
    if rows == [] then []
    else
      var init := rows[..|rows| - 1];
      FirstIndices(init) + (if PlaceKey(rows[|rows| - 1]) in Keys(init) then [] else [|rows| - 1])
  }

  /** A position is listed exactly when its row is the first with its place id. */
  lemma {:induction false} FirstIndicesAreFirsts(rows: seq<Row>)
    ensures forall i :: 0 <= i < |rows| ==> (i in FirstIndices(rows) <==> IsFirst(rows, i))
    decreases |rows|
  {
    if rows != [] {
      var init := rows[..|rows| - 1];
      FirstIndicesAreFirsts(init);
      LastFirstIsNew(rows);
      forall i | 0 <= i < |rows| - 1 ensures IsFirst(init, i) <==> IsFirst(rows, i) {
        FirstOfInit(rows, i);
      }
    }
  }

  /**
   * `drop_duplicates` keeps the rows at those positions and in that order: the
   * result is the subsequence of the first row of every place id.
   */
  lemma {:induction false} DropDuplicatesInOrder(rows: seq<Row>)
    ensures |DropDuplicates(rows)| == |FirstIndices(rows)|
    ensures forall j :: 0 <= j < |FirstIndices(rows)| ==> DropDuplicates(rows)[j] == rows[FirstIndices(rows)[j]]
    decreases |rows|
  {
    if rows != [] {
      var init, last := rows[..|rows| - 1], rows[|rows| - 1];
      var kept, fi := DropDuplicates(init), FirstIndices(init);
      DropDuplicatesInOrder(init);
      if PlaceKey(last) in Keys(init) {
        assert DropDuplicates(rows) == kept;
        assert FirstIndices(rows) == fi + [];
      } else {
        assert DropDuplicates(rows) == kept + [last];
        assert FirstIndices(rows) == fi + [|rows| - 1];
      }
      forall j | 0 <= j < |FirstIndices(rows)| ensures DropDuplicates(rows)[j] == rows[FirstIndices(rows)[j]] {
        if j < |fi| {
          assert rows[fi[j]] == init[fi[j]];
        }
      }
    }
  }

  // ---------------------------------------------------------------------------
  // scan_hex

  /**
   * What `scan_hex` does once the pages are in: concatenate, locate, stamp with
   * the query (and no data id), and de-duplicate by place id. With no page there
   * is nothing to concatenate.
   */
  function FinishScan(pages: seq<seq<Row>>, hexName: string, query: string, subHexSize: int,
                      cell: (Value, Value, int) -> Value, today: string, now: Value): (r: Result<seq<Row>>)
    ensures r.Ok? ==> forall i, j :: 0 <= i < j < |r.value| ==> PlaceKey(r.value[i]) != PlaceKey(r.value[j])
  {
    if pages == [] then Err(ValueError("No objects to concatenate"))
    else
      var located := AddLocationColumns(Concat(pages), Str(hexName), subHexSize, cell);
      if located.Err? then Err(located.error)
      else
        var stamped := AddQueryBoilerplate(located.value, Str(query), Null, today, now);
        if forall i :: 0 <= i < |stamped| ==> "place_id" !in stamped[i] then Err(KeyError("place_id"))
        else Ok(DropDuplicates(stamped))
  }

  /** `scan_hex` as a value: the pages of all sub-hexagons, then the finishing steps. */
  function ScanHexResult(first: string -> Row, next: Value -> Row, subHexes: seq<string>, hexName: string,
                         query: string, nPages: int, subHexSize: int, cell: (Value, Value, int) -> Value,
                         today: string, now: Value): (r: Result<seq<Row>>)
    ensures subHexes == [] ==> r == Err(ValueError("No objects to concatenate"))
    ensures r.Ok? ==> forall i, j :: 0 <= i < j < |r.value| ==> PlaceKey(r.value[i]) != PlaceKey(r.value[j])
  {
    var pages := ScanPages(first, next, subHexes, nPages, subHexSize);
    if pages.Err? then Err(pages.error)
    else
      FinishScan(pages.value, hexName, query, subHexSize, cell, today, now)
  }

  /** Once the pages of some sub-hexagon raise, so does the whole scan, with that error. */
  lemma {:induction false} ScanPagesErr(first: string -> Row, next: Value -> Row, subHexes: seq<string>,
                                        nPages: int, subHexSize: int, k: nat)
    requires k <= |subHexes| && ScanPages(first, next, subHexes[..k], nPages, subHexSize).Err?
    ensures ScanPages(first, next, subHexes, nPages, subHexSize) == ScanPages(first, next, subHexes[..k], nPages, subHexSize)
    decreases |subHexes| - k
  {
    if k < |subHexes| {
      assert subHexes[..k + 1][..k] == subHexes[..k];
      ScanPagesErr(first, next, subHexes, nPages, subHexSize, k + 1);
    } else {
      assert subHexes[..k] == subHexes;
    }
  }

  /**
   * The pages of one sub-hexagon as `scan_hex` fetches them: the first answer,
   * then up to `n_pages - 1` follow-up answers fetched by token, each appended as
   * it comes.
   */
  method SubHexScan(first: string -> Row, next: Value -> Row, hind: string, nPages: int, subHexSize: int)
    returns (r: Result<seq<seq<Row>>>)
    ensures r == SubHexPages(first, next, hind, nPages, subHexSize)
  {
    ghost var wanted := SubHexPages(first, next, hind, nPages, subHexSize);
    var firstPage := first(hind);
    var firstRows := PageRows(firstPage);
    if firstRows.Err? {
      return Err(firstRows.error);
    }
    var firstDf := Tagged(firstRows.value, HexColumn("hex", subHexSize), Str(hind));
    if firstDf.Err? {
      return Err(firstDf.error);
    }
    if "next_page_token" !in firstPage {
      return Err(KeyError("next_page_token"));
    }
    var token := firstPage["next_page_token"];
    var pages := [firstDf.value];
    var column := HexColumn("search_hex", subHexSize);
    var p := 0;
    var more := true;
    while more && p < FollowUps(nPages)
      invariant 0 <= p <= FollowUps(nPages)
      invariant wanted == Then(pages, if more then FollowPages(next, token, FollowUps(nPages) - p, column, hind) else Ok([]))
      decreases FollowUps(nPages) - p, more
    {
      var nextPage := next(token);
      var nextRows := PageRows(nextPage);
      if nextRows.Err? {
        return Err(nextRows.error);
      }
      var nextDf := Tagged(nextRows.value, column, Str(hind));
      if nextDf.Err? {
        return Err(nextDf.error);
      }
      if "next_page_token" in nextPage {
        ThenShift(pages, nextDf.value, FollowPages(next, nextPage["next_page_token"], FollowUps(nPages) - p - 1, column, hind));
        token := nextPage["next_page_token"];
        pages := pages + [nextDf.value];
        p := p + 1;
      } else {
        more := false;
      }
    }
    assert pages + [] == pages;
    r := Ok(pages);
  }

  /**
   * `scan_hex`: the pages of every sub-hexagon in turn, then the finishing steps.
   * `first` answers the search around a sub-hexagon, `next` the search by token.
   */
  method ScanHex(first: string -> Row, next: Value -> Row, subHexes: seq<string>, hexName: string,
                 query: string, nPages: int, subHexSize: int, cell: (Value, Value, int) -> Value,
                 today: string, now: Value) returns (r: Result<seq<Row>>)
    ensures r == ScanHexResult(first, next, subHexes, hexName, query, nPages, subHexSize, cell, today, now)
  {
    var allPlaces: seq<seq<Row>> := [];
    for h := 0 to |subHexes|
      invariant ScanPages(first, next, subHexes[..h], nPages, subHexSize) == Ok(allPlaces)
    {
      assert subHexes[..h + 1][..h] == subHexes[..h];
      var pages := SubHexScan(first, next, subHexes[h], nPages, subHexSize);
      if pages.Err? {
        ScanPagesErr(first, next, subHexes, nPages, subHexSize, h + 1);
        return Err(pages.error);
      }
      allPlaces := allPlaces + pages.value;
    }
    assert subHexes[..|subHexes|] == subHexes;
    r := FinishScan(allPlaces, hexName, query, subHexSize, cell, today, now);
  }
}
