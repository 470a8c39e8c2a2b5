/** ToO request models (wintertoo/models/too.py): the four concrete request
    classes, Summer/Winter crossed with coordinates/field, as one datatype with
    a smart constructor. Supplied values are checked against the field bounds;
    omitted ones take their defaults unchecked, as pydantic does. */
module TooModels {
  import opened Wrappers
  import opened Data

  const MIN_EXPOSURE_TIME: real := 0.28
  const MAX_EXPOSURE_TIME: real := 300.0

  datatype Season = Summer | Winter

  /** How the target is given, as supplied by the caller. */
  datatype LocatorInput =
    | RaDecInput(raDeg: real, decDeg: real, useFieldGrid: Option<bool>)
    | FieldInput(fieldId: int)

  /** How the target is given, after defaults. */
  datatype Target =
    | RaDecTarget(raDeg: real, decDeg: real, useFieldGrid: bool)
    | FieldTarget(fieldId: int)

  /** The keyword arguments of a request; `None` where the caller left a field
      out, and `extraKeys` for any keyword the class does not declare. */
  datatype RequestInput = RequestInput(
    season: Season,
    locator: LocatorInput,
    filters: Option<seq<string>>,
    targetPriority: Option<real>,
    targetName: Option<string>,
    totalExposureTime: Option<real>,
    nDither: Option<int>,
    nRepetitions: Option<int>,
    ditherDistance: Option<real>,
    startTimeMjd: Option<real>,
    endTimeMjd: Option<real>,
    maxAirmass: Option<real>,
    useBestDetector: Option<bool>,
    extraKeys: seq<string>)

  /** A constructed request. */
  datatype ToORequest = ToORequest(
    season: Season,
    target: Target,
    filters: seq<string>,
    targetPriority: real,
    targetName: string,
    totalExposureTime: real,
    nDither: int,
    nRepetitions: int,
    ditherDistance: real,
    startTimeMjd: real,
    endTimeMjd: real,
    maxAirmass: real,
    useBestDetector: bool)

  datatype TooError =
    | InvalidFields(names: seq<string>)
    | EndNotAfterStart
    | ZeroDithers
    | ExposureTooLong
    | ExposureTooShort
    | BestDetectorWithFieldGrid

  /** The filter names a season's class admits (its `Literal` type). */
  function AllowedFilters(season: Season): (fs: seq<string>)
    ensures season == Summer ==> fs == SUMMER_FILTERS
    ensures season == Winter ==> fs == WINTER_FILTERS
  {
    if season == Summer then SUMMER_FILTERS else WINTER_FILTERS
  }

  /** The filter list a season's class uses when none is given. */
  function DefaultFilters(season: Season): (fs: seq<string>)
    ensures forall f | f in fs :: f in AllowedFilters(season)
    ensures |fs| >= 1
  {
    if season == Summer then SUMMER_FILTERS else WINTER_SCIENCE_FILTERS
  }

  /** The filter check of the concrete classes as written: each name must be
      allowed, and nothing else. `Summer` and `Winter` re-declare `filters`,
      and that declaration replaces the base class's `min_length=1`. */
  predicate AsWrittenFiltersValid(season: Season, fs: seq<string>)
  {
    forall f | f in fs :: f in AllowedFilters(season)
  }

  /** The intended filter check: non-empty, every name allowed. */
  predicate FiltersValid(season: Season, fs: seq<string>)
  {
    |fs| >= 1 && AsWrittenFiltersValid(season, fs)
  }

  /** An empty filter list passes the check as written, and the intended
      check rejects it. */
  lemma EmptyFilterListPassesAsWritten(season: Season)
    ensures AsWrittenFiltersValid(season, [])
    ensures !FiltersValid(season, [])
  {
  }

  /** A reason to reject a field when one constraint fails. */
  function Flag(bad: bool, name: string): seq<string>
  {
    if bad then [name] else []
  }

  predicate OutOfRange(x: real, lo: real, hi: real)
  {
    x < lo || x > hi
  }

  /** The bound failures of the locator mixin's fields. */
  function LocatorViolations(l: LocatorInput): seq<string>
  {
    match l
    case RaDecInput(ra, dec, _) =>
      Flag(OutOfRange(ra, 0.0, 360.0), "ra_deg") + Flag(OutOfRange(dec, -90.0, 90.0), "dec_deg")
    case FieldInput(id) => Flag(id < 1, "field_id")
  }

  /** The bound failures of the request base's fields, in declaration order.
      `endLowerBound` is the `Time.now()` of class definition, which bounds
      `end_time_mjd`. */
  function RequestViolations(i: RequestInput, endLowerBound: real): seq<string>
  {
    Flag(i.filters.Some? && !FiltersValid(i.season, i.filters.value), "filters")
    + Flag(i.targetPriority.Some? && i.targetPriority.value < 0.0, "target_priority")
    + Flag(i.targetName.Some? && !(1 <= |i.targetName.value| <= MAX_TARGNAME_LEN), "target_name")
    + Flag(i.totalExposureTime.Some? && i.totalExposureTime.value < 1.0, "total_exposure_time")
    + Flag(i.nDither.Some? && i.nDither.value < 1, "n_dither")
    + Flag(i.nRepetitions.Some? && i.nRepetitions.value < 1, "n_repetitions")
    + Flag(i.ditherDistance.Some? && i.ditherDistance.value < 0.0, "dither_distance")
    + Flag(i.endTimeMjd.Some? && i.endTimeMjd.value < endLowerBound, "end_time_mjd")
    + Flag(i.maxAirmass.Some? && OutOfRange(i.maxAirmass.value, 1.0, 5.0), "max_airmass")
  }

  /** The names of the supplied fields that break their declared bounds, then
      the undeclared keywords; omitted fields are not checked. Fields are in
      pydantic's order, first declaration along the reversed method resolution
      order: the locator mixin's fields come before the request base's. */
  function FieldViolations(i: RequestInput, endLowerBound: real): seq<string>
  {
    LocatorViolations(i.locator) + RequestViolations(i, endLowerBound) + i.extraKeys
  }

  /** The concrete classes list `ObsWithRaDec` or `ObsWithField` after
      `ToORequest` among their bases, so the reversed resolution order meets
      the locator's fields first: a bad coordinate or field ID heads the
      report, and undeclared keywords close it. */
  lemma LocatorFieldsReportedFirst(i: RequestInput, endLowerBound: real)
    ensures i.locator.RaDecInput? && OutOfRange(i.locator.raDeg, 0.0, 360.0) ==>
      FieldViolations(i, endLowerBound)[0] == "ra_deg"
    ensures i.locator.RaDecInput? && !OutOfRange(i.locator.raDeg, 0.0, 360.0)
            && OutOfRange(i.locator.decDeg, -90.0, 90.0) ==>
      FieldViolations(i, endLowerBound)[0] == "dec_deg"
    ensures i.locator.FieldInput? && i.locator.fieldId < 1 ==>
      FieldViolations(i, endLowerBound)[0] == "field_id"
    ensures |FieldViolations(i, endLowerBound)| >= |i.extraKeys|
    ensures FieldViolations(i, endLowerBound)[|FieldViolations(i, endLowerBound)| - |i.extraKeys|..] == i.extraKeys
  {
    var loc := LocatorViolations(i.locator);
    ConcatEnds(loc, RequestViolations(i, endLowerBound), i.extraKeys);
  }

  /** The first element of a three-part concatenation comes from its first
      part, and the last part is its suffix. */
  lemma ConcatEnds(a: seq<string>, b: seq<string>, c: seq<string>)
    ensures |a| > 0 ==> (a + b + c)[0] == a[0]
    ensures (a + b + c)[|a + b + c| - |c|..] == c
  {
  }

  /** `SummerRaDecToO(ra_deg=400.0, dec_deg=0.0, target_priority=-1.0)`
      reports the right ascension before the priority. */
  lemma RaBeforePriority(endLowerBound: real)
    ensures var q := RequestInput(Summer, RaDecInput(400.0, 0.0, None), None, Some(-1.0),
                                  None, None, None, None, None, None, None, None, None, []);
      FieldViolations(q, endLowerBound) == ["ra_deg", "target_priority"]
  {
    var q := RequestInput(Summer, RaDecInput(400.0, 0.0, None), None, Some(-1.0),
                          None, None, None, None, None, None, None, None, None, []);
    assert LocatorViolations(q.locator) == ["ra_deg"];
    assert RequestViolations(q, endLowerBound) == ["target_priority"];
  }

  function OrDefault<T>(o: Option<T>, d: T): T
  {
    match o
    case Some(v) => v
    case None => d
  }

  /** The request with every omitted field at its default. `now` is the
      `Time.now().mjd` evaluated when the class was defined. */
  function Resolve(i: RequestInput, d: SchemaDefaults, now: real): (q: ToORequest)
    ensures q.season == i.season
    ensures q.filters == OrDefault(i.filters, DefaultFilters(i.season))
    ensures q.targetPriority == OrDefault(i.targetPriority, 50.0)
    ensures q.nRepetitions == OrDefault(i.nRepetitions, 1)
    ensures q.startTimeMjd == OrDefault(i.startTimeMjd, now + 0.01)
    ensures q.endTimeMjd == OrDefault(i.endTimeMjd, now + 1.0)
    ensures q.totalExposureTime == OrDefault(i.totalExposureTime, d.visitExpTime)
    ensures q.nDither == OrDefault(i.nDither, d.ditherNumber)
    ensures i.locator.RaDecInput? <==> q.target.RaDecTarget?
    ensures i.locator.RaDecInput? ==>
      q.target == RaDecTarget(i.locator.raDeg, i.locator.decDeg, OrDefault(i.locator.useFieldGrid, false))
    ensures i.locator.FieldInput? ==> q.target == FieldTarget(i.locator.fieldId)
    ensures q.targetName == OrDefault(i.targetName, d.targName)
    ensures q.ditherDistance == OrDefault(i.ditherDistance, d.ditherStepSize)
    ensures q.maxAirmass == OrDefault(i.maxAirmass, d.maxAirmass)
    ensures q.useBestDetector == OrDefault(i.useBestDetector, d.bestDetector)
  {
    ToORequest(
      i.season,
      match i.locator
        case RaDecInput(ra, dec, grid) => RaDecTarget(ra, dec, OrDefault(grid, false))
        case FieldInput(id) => FieldTarget(id),
      OrDefault(i.filters, DefaultFilters(i.season)),
      OrDefault(i.targetPriority, 50.0),
      OrDefault(i.targetName, d.targName),
      OrDefault(i.totalExposureTime, d.visitExpTime),
      OrDefault(i.nDither, d.ditherNumber),
      OrDefault(i.nRepetitions, 1),
      OrDefault(i.ditherDistance, d.ditherStepSize),
      OrDefault(i.startTimeMjd, now + 0.01),
      OrDefault(i.endTimeMjd, now + 1.0),
      OrDefault(i.maxAirmass, d.maxAirmass),
      OrDefault(i.useBestDetector, d.bestDetector))
  }

  /** `single_exposure_time`: the exposure time of one dither. */
  function SingleExposureTime(q: ToORequest): (t: real)
    requires q.nDither != 0
    ensures t * (q.nDither as real) == q.totalExposureTime
  {
    q.totalExposureTime / (q.nDither as real)
  }

  /** What the model validators enforce on every constructed request. */
  predicate WellFormed(q: ToORequest)
  {
    && q.endTimeMjd > q.startTimeMjd
    && q.nDither != 0
    && MIN_EXPOSURE_TIME <= SingleExposureTime(q) <= MAX_EXPOSURE_TIME
    && !BothDetectorFlags(q)
  }

  /** A coordinate request that asks both for the best detector and for the
      field grid. */
  predicate BothDetectorFlags(q: ToORequest)
  {
    q.target.RaDecTarget? && q.useBestDetector && q.target.useFieldGrid
  }

  /** Construct a request: field bounds first (all failures reported
      together), then the model validators in the order pydantic runs them,
      base classes first along the reversed method resolution order: the
      detector/grid exclusivity of the coordinate mixin, then the
      end-after-start and per-dither exposure checks of the request base. */
  function MakeRequest(i: RequestInput, d: SchemaDefaults, now: real): (r: Result<ToORequest, TooError>)
    ensures r.Ok? <==> FieldViolations(i, now) == [] && WellFormed(Resolve(i, d, now))
    ensures r.Ok? ==> r.value == Resolve(i, d, now) && FiltersValid(i.season, r.value.filters)
    ensures r.Err? && r.error.InvalidFields? ==> r.error.names == FieldViolations(i, now) != []
    ensures r == Err(BestDetectorWithFieldGrid) <==>
      FieldViolations(i, now) == [] && BothDetectorFlags(Resolve(i, d, now))
    ensures r == Err(EndNotAfterStart) <==>
      && FieldViolations(i, now) == [] && !BothDetectorFlags(Resolve(i, d, now))
      && Resolve(i, d, now).endTimeMjd <= Resolve(i, d, now).startTimeMjd
    ensures r == Err(ZeroDithers) ==>
      !BothDetectorFlags(Resolve(i, d, now)) && Resolve(i, d, now).nDither == 0
    ensures r == Err(ExposureTooLong) ==>
      && !BothDetectorFlags(Resolve(i, d, now))
      && Resolve(i, d, now).endTimeMjd > Resolve(i, d, now).startTimeMjd
      && Resolve(i, d, now).nDither != 0 && SingleExposureTime(Resolve(i, d, now)) > MAX_EXPOSURE_TIME
    ensures r == Err(ExposureTooShort) ==>
      && !BothDetectorFlags(Resolve(i, d, now))
      && Resolve(i, d, now).endTimeMjd > Resolve(i, d, now).startTimeMjd
      && Resolve(i, d, now).nDither != 0 && SingleExposureTime(Resolve(i, d, now)) < MIN_EXPOSURE_TIME
  {
    var bad := FieldViolations(i, now);
    var q := Resolve(i, d, now);
    if bad != [] then Err(InvalidFields(bad))
    else if BothDetectorFlags(q) then Err(BestDetectorWithFieldGrid)
    else if q.endTimeMjd <= q.startTimeMjd then Err(EndNotAfterStart)
    else if q.nDither == 0 then Err(ZeroDithers)
    else if SingleExposureTime(q) > MAX_EXPOSURE_TIME then Err(ExposureTooLong)
    else if SingleExposureTime(q) < MIN_EXPOSURE_TIME then Err(ExposureTooShort)
    else
      assert FiltersValid(i.season, q.filters) by {
        if i.filters.None? {
          assert q.filters == DefaultFilters(i.season);
        } else {
          assert "filters" !in bad;
        }
      }
      Ok(q)
  }

  /** A field the caller supplied is rejected exactly when its bound fails:
      here the exposure-time bounds and the window, the two construction-time
      invariants a request is known for. */
  lemma ExposureAndWindowDecideAcceptance(i: RequestInput, d: SchemaDefaults, now: real)
    requires FieldViolations(i, now) == []
    requires i.locator.FieldInput?
    requires i.nDither.Some? && i.totalExposureTime.Some?
    ensures MakeRequest(i, d, now).Ok? <==>
      && Resolve(i, d, now).endTimeMjd > Resolve(i, d, now).startTimeMjd
      && MIN_EXPOSURE_TIME * (i.nDither.value as real) <= i.totalExposureTime.value
      && i.totalExposureTime.value <= MAX_EXPOSURE_TIME * (i.nDither.value as real)
  {
    var q := Resolve(i, d, now);
    assert "n_dither" !in FieldViolations(i, now);
    assert q.nDither >= 1;
    PerDitherBounds(q.totalExposureTime, q.nDither as real);
  }

  /** Per-dither exposure bounds restated on the total: for a positive
      dither count n, MIN <= total/n <= MAX exactly when
      MIN*n <= total <= MAX*n. */
  lemma PerDitherBounds(total: real, n: real)
    requires n > 0.0
    ensures MIN_EXPOSURE_TIME <= total / n <==> MIN_EXPOSURE_TIME * n <= total
    ensures total / n <= MAX_EXPOSURE_TIME <==> total <= MAX_EXPOSURE_TIME * n
  {
    var t := total / n;
    assert t * n == total;
    ScaleKeepsOrder(MIN_EXPOSURE_TIME, t, n);
    assert MIN_EXPOSURE_TIME <= t <==> MIN_EXPOSURE_TIME * n <= t * n;
    assert MIN_EXPOSURE_TIME <= t <==> MIN_EXPOSURE_TIME * n <= total;
    ScaleKeepsOrder(t, MAX_EXPOSURE_TIME, n);
  }

  /** Multiplying both sides by a positive count keeps a comparison. */
  lemma ScaleKeepsOrder(a: real, b: real, n: real)
    requires n > 0.0
    ensures a <= b <==> a * n <= b * n
  {
    if a <= b {
      assert (b - a) * n >= 0.0;
    } else {
      assert (a - b) * n > 0.0;
    }
  }
}
