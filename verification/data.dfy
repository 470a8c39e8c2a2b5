/** Telescope constants, the two field catalogs and the schedule-row shape
    (wintertoo/data/__init__.py). The catalog tables and the schedule JSON
    schema are files read once at import; here they are values handed in. */
module Data {
  import opened Wrappers
  import opened Seqs

  /** Filters of the summer camera, in declaration order. */
  const SUMMER_FILTERS: seq<string> := ["u", "g", "r", "i"]
  /** Filters of the winter camera, in declaration order. */
  const WINTER_FILTERS: seq<string> := ["dark", "Y", "J", "Hs"]
  /** The winter filters used for science, and the winter request default. */
  const WINTER_SCIENCE_FILTERS: seq<string> := ["Y", "J", "Hs"]

  /** Side of one summer-grid tile, degrees. */
  const SUMMER_BASE_WIDTH: real := 0.26112
  /** Side of one winter-grid tile, degrees. */
  const WINTER_BASE_WIDTH: real := 1.0

  const MAX_TARGNAME_LEN: nat := 30

  /** Winter catalog rows with an ID from here on form the secondary grid. */
  const WINTER_SECONDARY_FIRST_ID: int := 41170

  /** One tile of a field catalog: its ID and the RA/Dec of its centre. */
  datatype FieldRow = FieldRow(id: int, ra: real, dec: real)

  /** The two catalog files as loaded: summer_fields.txt and winter_fields.txt. */
  datatype Catalogs = Catalogs(summerFields: seq<FieldRow>, allWinterFields: seq<FieldRow>)

  function IdBelow(limit: int): FieldRow -> bool
  {
    (f: FieldRow) => f.id < limit
  }

  function IdAtLeast(limit: int): FieldRow -> bool
  {
    (f: FieldRow) => f.id >= limit
  }

  /** The primary winter grid: rows with ID below 41170, in file order. */
  function WinterFields(c: Catalogs): seq<FieldRow>
  {
    Filter(c.allWinterFields, IdBelow(WINTER_SECONDARY_FIRST_ID))
  }

  /** The secondary winter grid: rows with ID 41170 or above, in file order. */
  function WinterSecondaryFields(c: Catalogs): seq<FieldRow>
  {
    Filter(c.allWinterFields, IdAtLeast(WINTER_SECONDARY_FIRST_ID))
  }

  /** The two winter grids partition the winter file: every row lands in
      exactly the grid its ID selects, no row is lost or duplicated, and both
      grids keep file order. */
  lemma WinterSplitIsPartition(c: Catalogs)
    ensures forall f | f in WinterFields(c) :: f in c.allWinterFields && f.id < 41170
    ensures forall f | f in WinterSecondaryFields(c) :: f in c.allWinterFields && f.id >= 41170
    ensures forall f | f in c.allWinterFields :: (f in WinterFields(c)) != (f in WinterSecondaryFields(c))
    ensures multiset(WinterFields(c)) + multiset(WinterSecondaryFields(c)) == multiset(c.allWinterFields)
    ensures |WinterFields(c)| + |WinterSecondaryFields(c)| == |c.allWinterFields|
  {
    var p, q := IdBelow(WINTER_SECONDARY_FIRST_ID), IdAtLeast(WINTER_SECONDARY_FIRST_ID);
    FilterSplit(c.allWinterFields, p, q);
    forall f | f in c.allWinterFields
      ensures (f in WinterFields(c)) != (f in WinterSecondaryFields(c))
    {
      var i :| 0 <= i < |c.allWinterFields| && c.allWinterFields[i] == f;
      assert p(c.allWinterFields[i]) || q(c.allWinterFields[i]);
    }
  }

  /** The science filters are winter filters. */
  lemma WinterScienceFiltersAreWinterFilters()
    ensures forall f | f in WINTER_SCIENCE_FILTERS :: f in WINTER_FILTERS
    ensures |WINTER_SCIENCE_FILTERS| < |WINTER_FILTERS|
  {
  }

  /** One entry of the schema's `properties` object; `default` may be absent. */
  datatype Property<V> = Property(default: Option<V>)

  datatype SchemaError = MissingProperty(key: string) | MissingDefault(key: string)

  /** `too_db_schedule_config["properties"][key]["default"]`: the schema's
      default for `key`; a missing key or a missing default raises KeyError. */
  function GetDefaultValue<V>(properties: map<string, Property<V>>, key: string): (r: Result<V, SchemaError>)
    ensures r.Ok? <==> key in properties && properties[key].default.Some?
    ensures r.Ok? ==> properties[key].default == Some(r.value)
    ensures r == Err(MissingProperty(key)) <==> key !in properties
  {
    if key !in properties then Err(MissingProperty(key))
    else match properties[key].default
      case None => Err(MissingDefault(key))
      case Some(v) => Ok(v)
  }

  /** The schema defaults the request model and the schedule builder read
      through `get_default_value` (keys targName, visitExpTime, ditherNumber,
      ditherStepSize, maxAirmass, bestDetector, fieldID). */
  datatype SchemaDefaults = SchemaDefaults(
    targName: string,
    visitExpTime: real,
    ditherNumber: int,
    ditherStepSize: real,
    maxAirmass: real,
    bestDetector: bool,
    fieldID: int)

  /** The columns of one scheduled exposure, before `obsHistID` is attached. */
  datatype Entry = Entry(
    raDeg: real,
    decDeg: real,
    fieldID: int,
    filter: string,
    visitExpTime: real,
    priority: real,
    progPI: string,
    progName: string,
    progID: int,
    validStart: real,
    validStop: real,
    observed: bool,
    maxAirmass: real,
    ditherNumber: int,
    ditherStepSize: real)

  /** One row of a schedule table: the entry and its `obsHistID`. */
  datatype Row = Row(obsHistID: int, entry: Entry)
}
