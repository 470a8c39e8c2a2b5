/** Image-archive queries (wintertoo/models/image.py): the base query, the
    rectangle query with its min/max pair check, and the cone query. "Today"
    and the two default dates are computed when the module is imported; they
    are parameters here, as is the date encoding. */
module ImageModels {
  import opened Wrappers
  import ProgramModels

  datatype ImageKind = Raw | Science | Diff

  /** The `Literal["raw", "science", "diff"]` of the `kind` field. */
  function ParseKind(s: string): (k: Option<ImageKind>)
    ensures k.Some? <==> s in ["raw", "science", "diff"]
  {
    if s == "raw" then Some(Raw)
    else if s == "science" then Some(Science)
    else if s == "diff" then Some(Diff)
    else None
  }

  /** Import-time dates: today, and the two defaults (30 days ago and today). */
  datatype Clock = Clock(today: int, defaultStart: int, defaultEnd: int)

  /** One `ProgramCredentials` entry of `program_list`. */
  datatype Credentials = Credentials(progname: string, progKey: string)

  datatype BaseInput = BaseInput(
    programList: seq<Credentials>,
    startDate: Option<int>,
    endDate: Option<int>,
    kind: Option<string>)

  datatype BaseQuery = BaseQuery(programList: seq<Credentials>, startDate: int, endDate: int, kind: ImageKind)

  datatype RectangleInput = RectangleInput(
    base: BaseInput, raMin: Option<real>, raMax: Option<real>, decMin: Option<real>, decMax: Option<real>)

  datatype RectangleQuery = RectangleQuery(base: BaseQuery, raMin: real, raMax: real, decMin: real, decMax: real)

  datatype ConeInput = ConeInput(base: BaseInput, ra: Option<real>, dec: Option<real>, radiusDeg: Option<real>)

  datatype ConeQuery = ConeQuery(base: BaseQuery, ra: real, dec: real, radiusDeg: real)

  datatype ImageQueryError = InvalidFields(names: seq<string>) | RangeInvalid(axis: string)

  function Flag(bad: bool, name: string): seq<string>
  {
    if bad then [name] else []
  }

  /** A supplied coordinate outside [lo, hi]. */
  predicate Outside(o: Option<real>, lo: real, hi: real)
  {
    o.Some? && (o.value < lo || o.value > hi)
  }

  function OrDefault<T>(o: Option<T>, d: T): T
  {
    if o.Some? then o.value else d
  }

  /** Failing fields of the base query: an empty program list or an invalid
      credential in it, a date after today, an unknown image kind. */
  function BaseViolations(b: BaseInput, clock: Clock): seq<string>
  {
    Flag(|b.programList| < 1
         || exists c | c in b.programList :: !ProgramModels.CredentialsValid(c.progname), "program_list")
    + Flag(b.startDate.Some? && b.startDate.value > clock.today, "start_date")
    + Flag(b.endDate.Some? && b.endDate.value > clock.today, "end_date")
    + Flag(b.kind.Some? && ParseKind(b.kind.value).None?, "kind")
  }

  /** `q` is the base query the caller asked for: the program list as given,
      each date as given or at its import-time default, and the named image
      kind, science when none is named. */
  predicate BaseResolvedFrom(q: BaseQuery, b: BaseInput, clock: Clock)
  {
    && q.programList == b.programList
    && q.startDate == OrDefault(b.startDate, clock.defaultStart)
    && q.endDate == OrDefault(b.endDate, clock.defaultEnd)
    && (b.kind.None? ==> q.kind == Science)
    && (b.kind.Some? ==> ParseKind(b.kind.value) == Some(q.kind))
  }

  function ResolveBase(b: BaseInput, clock: Clock): (q: BaseQuery)
    requires b.kind.Some? ==> ParseKind(b.kind.value).Some?
    ensures BaseResolvedFrom(q, b, clock)
  {
    BaseQuery(b.programList, OrDefault(b.startDate, clock.defaultStart), OrDefault(b.endDate, clock.defaultEnd),
              if b.kind.Some? then ParseKind(b.kind.value).value else Science)
  }

  function RectangleViolations(r: RectangleInput, clock: Clock): seq<string>
  {
    BaseViolations(r.base, clock)
    + Flag(Outside(r.raMin, 0.0, 360.0), "ra_min")
    + Flag(Outside(r.raMax, 0.0, 360.0), "ra_max")
    + Flag(Outside(r.decMin, -90.0, 90.0), "dec_min")
    + Flag(Outside(r.decMax, -90.0, 90.0), "dec_max")
  }

  /** Construct a rectangle query: field bounds, then `validate_field_pairs`,
      which requires max strictly above min, RA pair first, then Dec. */
  function MakeRectangleQuery(r: RectangleInput, clock: Clock): (res: Result<RectangleQuery, ImageQueryError>)
    ensures res.Ok? <==> (
      RectangleViolations(r, clock) == []
      && OrDefault(r.raMin, 0.0) < OrDefault(r.raMax, 360.0)
      && OrDefault(r.decMin, -90.0) < OrDefault(r.decMax, 90.0))
    ensures res.Ok? ==> (
      0.0 <= res.value.raMin < res.value.raMax <= 360.0
      && -90.0 <= res.value.decMin < res.value.decMax <= 90.0
      && |res.value.base.programList| >= 1
      && (r.base.startDate.Some? ==> res.value.base.startDate <= clock.today)
      && (r.base.endDate.Some? ==> res.value.base.endDate <= clock.today))
    ensures res.Ok? ==>
      && BaseResolvedFrom(res.value.base, r.base, clock)
      && res.value.raMin == OrDefault(r.raMin, 0.0) && res.value.raMax == OrDefault(r.raMax, 360.0)
      && res.value.decMin == OrDefault(r.decMin, -90.0) && res.value.decMax == OrDefault(r.decMax, 90.0)
    ensures res.Err? && res.error.InvalidFields? ==> res.error.names == RectangleViolations(r, clock) != []
    ensures res == Err(RangeInvalid("RA")) <==> (
      RectangleViolations(r, clock) == []
      && OrDefault(r.raMax, 360.0) <= OrDefault(r.raMin, 0.0))
    ensures res == Err(RangeInvalid("Dec")) <==> (
      RectangleViolations(r, clock) == []
      && OrDefault(r.raMin, 0.0) < OrDefault(r.raMax, 360.0)
      && OrDefault(r.decMax, 90.0) <= OrDefault(r.decMin, -90.0))
  {
    var bad := RectangleViolations(r, clock);
    if bad != [] then Err(InvalidFields(bad))
    else
      assert "kind" !in bad && "ra_min" !in bad && "ra_max" !in bad && "dec_min" !in bad && "dec_max" !in bad
        && "program_list" !in bad && "start_date" !in bad && "end_date" !in bad;
      var q := RectangleQuery(ResolveBase(r.base, clock),
        OrDefault(r.raMin, 0.0), OrDefault(r.raMax, 360.0), OrDefault(r.decMin, -90.0), OrDefault(r.decMax, 90.0));
      if q.raMax <= q.raMin then Err(RangeInvalid("RA"))
      else if q.decMax <= q.decMin then Err(RangeInvalid("Dec"))
      else Ok(q)
  }

  /** Leaving all four bounds out asks for the whole sky, and the defaults
      pass the pair check. */
  lemma DefaultRectanglePassesPairCheck(b: BaseInput, clock: Clock)
    requires BaseViolations(b, clock) == []
    ensures MakeRectangleQuery(RectangleInput(b, None, None, None, None), clock).Ok?
    ensures MakeRectangleQuery(RectangleInput(b, None, None, None, None), clock).value.raMax == 360.0
  {
    assert RectangleViolations(RectangleInput(b, None, None, None, None), clock) == BaseViolations(b, clock);
  }

  function ConeViolations(c: ConeInput, clock: Clock): seq<string>
  {
    BaseViolations(c.base, clock)
    + Flag(Outside(c.ra, 0.0, 360.0), "ra")
    + Flag(Outside(c.dec, -90.0, 90.0), "dec")
    + Flag(Outside(c.radiusDeg, 0.0, 90.0), "radius_deg")
  }

  /** Construct a cone query: ra in [0,360], dec in [-90,90], radius in
      [0,90]; defaults 0, -90 and 1 degree. */
  function MakeConeQuery(c: ConeInput, clock: Clock): (res: Result<ConeQuery, ImageQueryError>)
    ensures res.Ok? <==> ConeViolations(c, clock) == []
    ensures res.Err? ==> res.error == InvalidFields(ConeViolations(c, clock))
    ensures res.Ok? ==> (
      0.0 <= res.value.ra <= 360.0 && -90.0 <= res.value.dec <= 90.0
      && 0.0 <= res.value.radiusDeg <= 90.0)
    ensures res.Ok? ==>
      && BaseResolvedFrom(res.value.base, c.base, clock)
      && res.value.ra == OrDefault(c.ra, 0.0) && res.value.dec == OrDefault(c.dec, -90.0)
      && res.value.radiusDeg == OrDefault(c.radiusDeg, 1.0)
  {
    var bad := ConeViolations(c, clock);
    if bad != [] then Err(InvalidFields(bad))
    else
      assert "kind" !in bad && "ra" !in bad && "dec" !in bad && "radius_deg" !in bad;
      Ok(ConeQuery(ResolveBase(c.base, clock), OrDefault(c.ra, 0.0), OrDefault(c.dec, -90.0), OrDefault(c.radiusDeg, 1.0)))
  }
}
