/** Field-catalog queries (wintertoo/fields.py). The angular separation
    (`SkyCoord.separation`) and `cos` of the declination are supplied by the
    caller; plotting is not part of this model. */
module Fields {
  import opened Wrappers
  import opened Seqs
  import opened Data

  /** The catalog for the chosen camera: summer grid, or primary winter grid. */
  function GetFields(c: Catalogs, summer: bool): (t: seq<FieldRow>)
    ensures summer ==> t == c.summerFields
    ensures !summer ==> t == WinterFields(c)
    ensures !summer ==> forall f | f in t :: f in c.allWinterFields && f.id < WINTER_SECONDARY_FIRST_ID
    ensures !summer ==> forall f | f in c.allWinterFields && f.id < WINTER_SECONDARY_FIRST_ID :: f in t
  {
    if summer then c.summerFields else WinterFields(c)
  }

  /** Tile side in degrees for the chosen camera. */
  function GetBaseWidth(summer: bool): (w: real)
    ensures w > 0.0
    ensures w == if summer then 0.26112 else 1.0
  {
    if summer then SUMMER_BASE_WIDTH else WINTER_BASE_WIDTH
  }

  datatype FieldError = FieldNotFound(fieldId: int) | DuplicateField(fieldId: int) | NoOverlappingField

  function HasId(fieldId: int): FieldRow -> bool
  {
    (f: FieldRow) => f.id == fieldId
  }

  /** The one-row frame of the catalog row whose ID is `fieldId`. No such row
      raises KeyError; more than one fails the uniqueness assertion. */
  function GetFieldInfo(c: Catalogs, fieldId: int, summer: bool): (r: Result<seq<FieldRow>, FieldError>)
    ensures r == Err(FieldNotFound(fieldId)) <==> forall f | f in GetFields(c, summer) :: f.id != fieldId
    ensures r == Err(DuplicateField(fieldId)) <==> Count(GetFields(c, summer), HasId(fieldId)) > 1
    ensures r.Ok? ==> |r.value| == 1 && r.value[0] in GetFields(c, summer) && r.value[0].id == fieldId
    ensures r.Ok? ==> forall f | f in GetFields(c, summer) && f.id == fieldId :: f == r.value[0]
  {
    var t := GetFields(c, summer);
    var matching := Filter(t, HasId(fieldId));
    if |matching| == 0 then
      FilterEmpty(t, HasId(fieldId));
      Err(FieldNotFound(fieldId))
    else if |matching| > 1 then
      assert HasId(fieldId)(matching[0]);
      Err(DuplicateField(fieldId))
    else
      FilterSingleton(t, HasId(fieldId));
      assert HasId(fieldId)(matching[0]);
      assert matching == [matching[0]];
      Ok(matching)
  }

  /** Strictly inside the query rectangle widened by `half` on every side. */
  predicate InBox(f: FieldRow, raLo: real, raHi: real, decLo: real, decHi: real, half: real)
  {
    raLo - half < f.ra < raHi + half && decLo - half < f.dec < decHi + half
  }

  function InBoxOf(raLo: real, raHi: real, decLo: real, decHi: real, half: real): FieldRow -> bool
  {
    (f: FieldRow) => InBox(f, raLo, raHi, decLo, decHi, half)
  }

  /** Every catalog tile whose centre lies strictly inside the rectangle grown
      by half a tile on all four sides, in catalog order. No RA wrap-around. */
  function GetFieldsInBox(c: Catalogs, raLo: real, raHi: real, decLo: real, decHi: real, summer: bool)
    : (r: seq<FieldRow>)
    ensures forall f | f in r ::
      f in GetFields(c, summer) && InBox(f, raLo, raHi, decLo, decHi, GetBaseWidth(summer) / 2.0)
    ensures forall f | f in GetFields(c, summer) && InBox(f, raLo, raHi, decLo, decHi, GetBaseWidth(summer) / 2.0)
      :: f in r
  {
    var half := 0.5 * GetBaseWidth(summer);
    var t := GetFields(c, summer);
    var r := Filter(t, InBoxOf(raLo, raHi, decLo, decHi, half));
    assert forall f | f in t && InBox(f, raLo, raHi, decLo, decHi, half) :: f in r by {
      forall f | f in t && InBox(f, raLo, raHi, decLo, decHi, half) ensures f in r {
        var i :| 0 <= i < |t| && t[i] == f;
        assert InBoxOf(raLo, raHi, decLo, decHi, half)(t[i]);
      }
    }
    r
  }

  /** The same box query over the concatenation of two catalog pieces is the
      concatenation of the two answers: the result keeps catalog order. */
  lemma BoxQueryKeepsCatalogOrder(a: seq<FieldRow>, b: seq<FieldRow>,
                                   raLo: real, raHi: real, decLo: real, decHi: real, half: real)
    ensures Filter(a + b, InBoxOf(raLo, raHi, decLo, decHi, half))
         == Filter(a, InBoxOf(raLo, raHi, decLo, decHi, half)) + Filter(b, InBoxOf(raLo, raHi, decLo, decHi, half))
  {
    FilterAppend(a, b, InBoxOf(raLo, raHi, decLo, decHi, half));
  }

  /** The tile footprint, `width` wide on both axes, strictly contains the point. */
  predicate Overlaps(f: FieldRow, ra: real, dec: real, width: real)
  {
    ra - 0.5 * width < f.ra < ra + 0.5 * width && dec - 0.5 * width < f.dec < dec + 0.5 * width
  }

  function OverlapsPoint(ra: real, dec: real, width: real): FieldRow -> bool
  {
    (f: FieldRow) => Overlaps(f, ra, dec, width)
  }

  /** The footprint width at declination `dec`, given `cosDec` = cos(dec). */
  function FootprintWidth(summer: bool, cosDec: real): real
    requires cosDec != 0.0
  {
    GetBaseWidth(summer) / cosDec
  }

  lemma FootprintPositive(summer: bool, cosDec: real)
    requires cosDec > 0.0
    ensures FootprintWidth(summer, cosDec) > 0.0
  {
    assert GetBaseWidth(summer) > 0.0;
  }

  /** Every tile whose centre is strictly within half a footprint of the point
      on both axes, with one width base/cos(dec) used for RA and Dec alike. */
  function GetOverlappingFields(c: Catalogs, ra: real, dec: real, summer: bool, cosDec: real)
    : (r: seq<FieldRow>)
    requires cosDec != 0.0
    ensures forall f | f in r :: f in GetFields(c, summer) && Overlaps(f, ra, dec, FootprintWidth(summer, cosDec))
    ensures forall f | f in GetFields(c, summer) && Overlaps(f, ra, dec, FootprintWidth(summer, cosDec)) :: f in r
  {
    var w := FootprintWidth(summer, cosDec);
    var t := GetFields(c, summer);
    var r := Filter(t, OverlapsPoint(ra, dec, w));
    assert forall f | f in t && Overlaps(f, ra, dec, w) :: f in r by {
      forall f | f in t && Overlaps(f, ra, dec, w) ensures f in r {
        var i :| 0 <= i < |t| && t[i] == f;
        assert OverlapsPoint(ra, dec, w)(t[i]);
      }
    }
    r
  }

  /** Position of the first smallest value: numpy's `dists == min(dists)`
      mask followed by `iloc[0]`. */
  function FirstMinIndex(ds: seq<real>): (k: nat)
    requires |ds| > 0
    ensures k < |ds|
    ensures forall j | 0 <= j < |ds| :: ds[k] <= ds[j]
    ensures forall j | 0 <= j < k :: ds[k] < ds[j]
  {
    if |ds| == 1 then 0
    else
      var k' := FirstMinIndex(ds[1..]);
      if ds[0] <= ds[1 + k'] then 0 else 1 + k'
  }

  /** Angular separations from the point to each listed tile centre. */
  function Separations(fs: seq<FieldRow>, ra: real, dec: real, sep: (real, real, real, real) -> real)
    : (ds: seq<real>)
  {
    seq(|fs|, i requires 0 <= i < |fs| => sep(ra, dec, fs[i].ra, fs[i].dec))
  }

  /** The overlapping tile whose centre is closest to the point, the first such
      tile in catalog order on a tie; raises when no tile overlaps (numpy's min
      of an empty array). */
  function GetBestField(c: Catalogs, ra: real, dec: real, summer: bool, cosDec: real,
                        sep: (real, real, real, real) -> real)
    : (r: Result<FieldRow, FieldError>)
    requires cosDec != 0.0
    ensures r.Err? <==> GetOverlappingFields(c, ra, dec, summer, cosDec) == []
    ensures r.Err? ==> r.error == NoOverlappingField
    ensures r.Ok? ==> r.value in GetOverlappingFields(c, ra, dec, summer, cosDec)
    ensures r.Ok? ==> forall f | f in GetOverlappingFields(c, ra, dec, summer, cosDec)
      :: sep(ra, dec, r.value.ra, r.value.dec) <= sep(ra, dec, f.ra, f.dec)
    ensures r.Ok? ==> var res := GetOverlappingFields(c, ra, dec, summer, cosDec);
      exists k | 0 <= k < |res| :: res[k] == r.value
        && forall j | 0 <= j < k :: sep(ra, dec, res[j].ra, res[j].dec) > sep(ra, dec, r.value.ra, r.value.dec)
  {
    var res := GetOverlappingFields(c, ra, dec, summer, cosDec);
    if res == [] then Err(NoOverlappingField)
    else
      var k := FirstMinIndex(Separations(res, ra, dec, sep));
      FirstMinIsClosest(res, ra, dec, sep);
      Ok(res[k])
  }

  /** The first minimum of the separations is a closest tile, and every
      earlier tile is strictly farther. */
  lemma FirstMinIsClosest(res: seq<FieldRow>, ra: real, dec: real, sep: (real, real, real, real) -> real)
    requires res != []
    ensures var k := FirstMinIndex(Separations(res, ra, dec, sep));
      && k < |res|
      && (forall f | f in res :: sep(ra, dec, res[k].ra, res[k].dec) <= sep(ra, dec, f.ra, f.dec))
      && (forall j | 0 <= j < k :: sep(ra, dec, res[j].ra, res[j].dec) > sep(ra, dec, res[k].ra, res[k].dec))
  {
    var ds := Separations(res, ra, dec, sep);
    var k := FirstMinIndex(ds);
    assert forall i | 0 <= i < |res| :: ds[i] == sep(ra, dec, res[i].ra, res[i].dec);
    forall f | f in res
      ensures sep(ra, dec, res[k].ra, res[k].dec) <= sep(ra, dec, f.ra, f.dec)
    {
      var j :| 0 <= j < |res| && res[j] == f;
      assert ds[k] <= ds[j];
    }
  }

  /** Snapping is a fixed point: asked for the centre of a catalog tile, the
      best field has exactly that centre, provided the separation is zero
      between equal points and positive between distinct ones, and cos(dec)
      is positive (away from the poles). */
  lemma SnapToTileCentreIsFixedPoint(c: Catalogs, f: FieldRow, summer: bool, cosDec: real,
                                     sep: (real, real, real, real) -> real)
    requires f in GetFields(c, summer)
    requires cosDec > 0.0
    requires forall a, b, x, y :: sep(a, b, x, y) >= 0.0
    requires forall a, b, x, y :: sep(a, b, x, y) == 0.0 <==> a == x && b == y
    ensures GetBestField(c, f.ra, f.dec, summer, cosDec, sep).Ok?
    ensures GetBestField(c, f.ra, f.dec, summer, cosDec, sep).value.ra == f.ra
    ensures GetBestField(c, f.ra, f.dec, summer, cosDec, sep).value.dec == f.dec
  {
    var w := FootprintWidth(summer, cosDec);
    FootprintPositive(summer, cosDec);
    assert Overlaps(f, f.ra, f.dec, w);
    var res := GetOverlappingFields(c, f.ra, f.dec, summer, cosDec);
    assert f in res;
    var b := GetBestField(c, f.ra, f.dec, summer, cosDec, sep).value;
    ClosestToCentreIsCentre(res, f, b, sep);
  }

  /** Among candidates that include the point itself, a closest one sits at
      the point: its separation is at most zero, hence zero. */
  lemma ClosestToCentreIsCentre(res: seq<FieldRow>, f: FieldRow, b: FieldRow,
                                sep: (real, real, real, real) -> real)
    requires f in res
    requires forall g | g in res :: sep(f.ra, f.dec, b.ra, b.dec) <= sep(f.ra, f.dec, g.ra, g.dec)
    requires forall a, b, x, y :: sep(a, b, x, y) >= 0.0
    requires forall a, b, x, y :: sep(a, b, x, y) == 0.0 <==> a == x && b == y
    ensures b.ra == f.ra && b.dec == f.dec
  {
    assert sep(f.ra, f.dec, f.ra, f.dec) == 0.0;
    assert sep(f.ra, f.dec, b.ra, b.dec) <= 0.0;
  }
}
