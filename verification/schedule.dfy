/** The schedule builder of wintertoo/schedule.py: `make_schedule` expands
    parallel per-target lists into one row per (target, filter, repetition),
    numbers the rows with `obsHistID` and validates them; `schedule_ra_dec`
    fills in defaults, optionally snaps the position to the best grid field,
    and feeds one target copy per filter to `make_schedule`. Times are MJD
    reals; the JSON schema is a row predicate. */
module Schedule {
  import opened Wrappers
  import opened Data
  import Fields
  import Validate
  import opened Seqs

  /** The per-target lists of `make_schedule`; `targetPriorities` is `None`
      when the argument is left at its default. */
  datatype Targets = Targets(
    raDegs: seq<real>,
    decDegs: seq<real>,
    fieldIds: seq<int>,
    startTimes: seq<real>,
    endTimes: seq<real>,
    targetPriorities: Option<seq<real>>)

  /** The arguments of `make_schedule` copied into every row. */
  datatype Shared = Shared(
    programName: string,
    programId: int,
    pi: string,
    programPriority: real,
    texp: real,
    nDither: int,
    ditherDistance: real,
    maximumAirmass: real)

  datatype ScheduleError =
    | ListTooShort(column: string, index: nat)
    | NoTargetPriorities
    | NothingToConcatenate
    | Invalid(cause: Validate.ValidationError)
    | NotImplemented
    | NoOverlappingField

  function Priorities(t: Targets): seq<real>
  {
    if t.targetPriorities.Some? then t.targetPriorities.value else []
  }

  /** Every per-target list can be indexed at the first `n` targets. */
  predicate CoveredUpTo(t: Targets, n: nat)
  {
    n <= |t.raDegs| && n <= |t.decDegs| && n <= |t.fieldIds| && n <= |t.startTimes|
    && n <= |t.endTimes| && n <= |Priorities(t)|
  }

  predicate Covered(t: Targets)
  {
    CoveredUpTo(t, |t.raDegs|)
  }

  /** The row written for target `i` in filter `filter`. */
  function EntryFor(t: Targets, i: nat, filter: string, sh: Shared): Entry
    requires CoveredUpTo(t, i + 1)
  {
    Entry(
      t.raDegs[i], t.decDegs[i], t.fieldIds[i], filter, sh.texp,
      Validate.CalculateOverallPriority(Priorities(t)[i], sh.programPriority),
      sh.pi, sh.programName, sh.programId, t.startTimes[i], t.endTimes[i],
      false, sh.maximumAirmass, sh.nDither, sh.ditherDistance)
  }

  /** The blocks of target `i`: for each filter in turn, `reps` copies of
      the target's row in that filter (the two inner loops). */
  function FilterBlocks(t: Targets, i: nat, fs: seq<string>, reps: nat, sh: Shared): seq<seq<Entry>>
    requires CoveredUpTo(t, i + 1)
  {
    seq(|fs|, f requires 0 <= f < |fs| => Copies(EntryFor(t, i, fs[f], sh), reps))
  }

  /** The rows of the first `n` targets, one block per target. */
  function TargetBlocks(t: Targets, fs: seq<string>, reps: nat, sh: Shared, n: nat): seq<seq<Entry>>
    requires CoveredUpTo(t, n)
  {
    seq(n, i requires 0 <= i < n => Concat(FilterBlocks(t, i, fs, reps, sh)))
  }

  /** One more filter adds its `reps` copies at the end of the target's block. */
  lemma FilterBlocksStep(t: Targets, i: nat, fs: seq<string>, reps: nat, sh: Shared, f: nat)
    requires CoveredUpTo(t, i + 1) && f < |fs|
    ensures Concat(FilterBlocks(t, i, fs[..f + 1], reps, sh))
         == Concat(FilterBlocks(t, i, fs[..f], reps, sh)) + Copies(EntryFor(t, i, fs[f], sh), reps)
  {
    assert FilterBlocks(t, i, fs[..f + 1], reps, sh)
        == FilterBlocks(t, i, fs[..f], reps, sh) + [Copies(EntryFor(t, i, fs[f], sh), reps)];
    ConcatSnoc(FilterBlocks(t, i, fs[..f], reps, sh), Copies(EntryFor(t, i, fs[f], sh), reps));
  }

  /** One more target adds its block at the end. */
  lemma TargetBlocksStep(t: Targets, fs: seq<string>, reps: nat, sh: Shared, n: nat)
    requires CoveredUpTo(t, n + 1)
    ensures Concat(TargetBlocks(t, fs, reps, sh, n + 1))
         == Concat(TargetBlocks(t, fs, reps, sh, n)) + Concat(FilterBlocks(t, n, fs, reps, sh))
  {
    assert TargetBlocks(t, fs, reps, sh, n + 1)
        == TargetBlocks(t, fs, reps, sh, n) + [Concat(FilterBlocks(t, n, fs, reps, sh))];
    ConcatSnoc(TargetBlocks(t, fs, reps, sh, n), Concat(FilterBlocks(t, n, fs, reps, sh)));
  }

  /** A target's block holds `|fs|` blocks of `reps` rows. */
  lemma TargetBlockLength(t: Targets, i: nat, fs: seq<string>, reps: nat, sh: Shared)
    requires CoveredUpTo(t, i + 1)
    ensures |Concat(FilterBlocks(t, i, fs, reps, sh))| == BlockStart(|fs|, reps)
  {
    ConcatUniformLength(FilterBlocks(t, i, fs, reps, sh), reps);
  }

  /** Every row of a target's block is that target in one of the filters. */
  lemma TargetBlockMembers(t: Targets, i: nat, fs: seq<string>, reps: nat, sh: Shared)
    requires CoveredUpTo(t, i + 1)
    ensures forall e | e in Concat(FilterBlocks(t, i, fs, reps, sh)) ::
      e.filter in fs && e == EntryFor(t, i, e.filter, sh)
  {
    var bs := FilterBlocks(t, i, fs, reps, sh);
    ConcatMembers(bs);
    forall e: Entry | e in Concat(bs)
      ensures e.filter in fs && e == EntryFor(t, i, e.filter, sh)
    {
      var f :| 0 <= f < |bs| && e in bs[f];
      var k :| 0 <= k < reps && bs[f][k] == e;
      CopiesAt(EntryFor(t, i, fs[f], sh), reps, k);
    }
  }

  /** The rows `make_schedule` collects for its targets, before numbering. */
  function Expansion(t: Targets, fs: seq<string>, reps: nat, sh: Shared): seq<Entry>
    requires Covered(t)
  {
    Concat(TargetBlocks(t, fs, reps, sh, |t.raDegs|))
  }

  /** Every target contributes `|fs|` blocks of `reps` rows. */
  lemma ExpansionLength(t: Targets, fs: seq<string>, reps: nat, sh: Shared)
    requires Covered(t)
    ensures |Expansion(t, fs, reps, sh)| == BlockStart(|t.raDegs|, BlockStart(|fs|, reps))
  {
    var bs := TargetBlocks(t, fs, reps, sh, |t.raDegs|);
    forall i | 0 <= i < |bs|
      ensures |bs[i]| == BlockStart(|fs|, reps)
    {
      TargetBlockLength(t, i, fs, reps, sh);
    }
    ConcatUniformLength(bs, BlockStart(|fs|, reps));
  }

  /** Repetition `k` of target `i` in filter `fs[f]` comes after `i` whole
      target blocks and `f` filter blocks. */
  lemma ExpansionSlot(t: Targets, fs: seq<string>, reps: nat, sh: Shared, i: nat, f: nat, k: nat)
    requires Covered(t)
    requires i < |t.raDegs| && f < |fs| && k < reps
    ensures BlockStart(i, BlockStart(|fs|, reps)) + (BlockStart(f, reps) + k) < |Expansion(t, fs, reps, sh)|
    ensures Expansion(t, fs, reps, sh)[BlockStart(i, BlockStart(|fs|, reps)) + (BlockStart(f, reps) + k)]
         == EntryFor(t, i, fs[f], sh)
  {
    var bs := TargetBlocks(t, fs, reps, sh, |t.raDegs|);
    forall j | 0 <= j < |bs|
      ensures |bs[j]| == BlockStart(|fs|, reps)
    {
      TargetBlockLength(t, j, fs, reps, sh);
    }
    ConcatSlot(FilterBlocks(t, i, fs, reps, sh), reps, f, k);
    TargetBlockLength(t, i, fs, reps, sh);
    ConcatSlot(bs, BlockStart(|fs|, reps), i, BlockStart(f, reps) + k);
    CopiesAt(EntryFor(t, i, fs[f], sh), reps, k);
  }

  /** Every row of the expansion is one of the targets in one of the filters. */
  lemma ExpansionMembers(t: Targets, fs: seq<string>, reps: nat, sh: Shared)
    requires Covered(t)
    ensures forall e | e in Expansion(t, fs, reps, sh) ::
      exists i | 0 <= i < |t.raDegs| :: e.filter in fs && e == EntryFor(t, i, e.filter, sh)
  {
    var bs := TargetBlocks(t, fs, reps, sh, |t.raDegs|);
    ConcatMembers(bs);
    forall e: Entry | e in Concat(bs)
      ensures exists i | 0 <= i < |t.raDegs| :: e.filter in fs && e == EntryFor(t, i, e.filter, sh)
    {
      var i :| 0 <= i < |bs| && e in bs[i];
      TargetBlockMembers(t, i, fs, reps, sh);
    }
  }

  /** The slot offset in closed form. */
  lemma SlotIsProduct(i: nat, nf: nat, f: nat, reps: nat, k: nat)
    ensures BlockStart(i, BlockStart(nf, reps)) + (BlockStart(f, reps) + k) == (i * nf + f) * reps + k
  {
    BlockStartIsProduct(nf, reps);
    BlockStartIsProduct(i, nf * reps);
    BlockStartIsProduct(f, reps);
    assert (i * nf + f) * reps == i * (nf * reps) + f * reps;
  }

  /** `schedule["obsHistID"] = range(len(schedule))`. */
  function Number(es: seq<Entry>): (rows: seq<Row>)
    ensures |rows| == |es|
    ensures forall j | 0 <= j < |es| :: rows[j].obsHistID == j && rows[j].entry == es[j]
  {
    if es == [] then [] else Number(es[..|es| - 1]) + [Row(|es| - 1, es[|es| - 1])]
  }

  /** The table `make_schedule` builds before validation. */
  function Expected(t: Targets, fs: seq<string>, reps: nat, sh: Shared): seq<Row>
    requires Covered(t)
  {
    Number(Expansion(t, fs, reps, sh))
  }

  /** `range(nexp)` is empty for a non-positive count. */
  function Reps(nexp: int): nat
  {
    if nexp > 0 then nexp else 0
  }

  /** `filters=None` means all summer filters. */
  function FiltersOrDefault(filters: Option<seq<string>>): seq<string>
  {
    if filters.Some? then filters.value else SUMMER_FILTERS
  }

  /** The table has one row per target, filter and repetition. */
  lemma ExpectedLength(t: Targets, fs: seq<string>, reps: nat, sh: Shared)
    requires Covered(t)
    ensures |Expected(t, fs, reps, sh)| == |t.raDegs| * |fs| * reps
  {
    ExpansionLength(t, fs, reps, sh);
    BlockStartIsProduct(|fs|, reps);
    BlockStartIsProduct(|t.raDegs|, |fs| * reps);
    ProductAssociates(|t.raDegs|, |fs|, reps);
  }

  lemma ProductAssociates(a: nat, b: nat, c: nat)
    ensures a * (b * c) == a * b * c
  {
  }

  /** Rows are ordered by target, then filter, then repetition: row
      `(i * |fs| + f) * reps + k` is repetition `k` of target `i` in filter
      `fs[f]`, and its `obsHistID` is its position. */
  lemma ExpectedOrder(t: Targets, fs: seq<string>, reps: nat, sh: Shared, i: nat, f: nat, k: nat)
    requires Covered(t)
    requires i < |t.raDegs| && f < |fs| && k < reps
    ensures (i * |fs| + f) * reps + k < |Expected(t, fs, reps, sh)|
    ensures Expected(t, fs, reps, sh)[(i * |fs| + f) * reps + k]
         == Row((i * |fs| + f) * reps + k, EntryFor(t, i, fs[f], sh))
  {
    ExpansionSlot(t, fs, reps, sh, i, f, k);
    SlotIsProduct(i, |fs|, f, reps, k);
  }

  /** Every row: numbered by position, never observed, carrying the shared
      program columns, one of the filters, and the coordinates, field, window
      and overall priority of one of the targets. */
  lemma ExpectedRows(t: Targets, fs: seq<string>, reps: nat, sh: Shared)
    requires Covered(t)
    ensures forall j | 0 <= j < |Expected(t, fs, reps, sh)| ::
      var row := Expected(t, fs, reps, sh)[j];
      && row.obsHistID == j
      && !row.entry.observed
      && row.entry.filter in fs
      && row.entry.progName == sh.programName && row.entry.progID == sh.programId
      && row.entry.progPI == sh.pi && row.entry.visitExpTime == sh.texp
      && row.entry.ditherNumber == sh.nDither && row.entry.ditherStepSize == sh.ditherDistance
      && row.entry.maxAirmass == sh.maximumAirmass
      && exists i | 0 <= i < |t.raDegs| ::
           && row.entry.raDeg == t.raDegs[i] && row.entry.decDeg == t.decDegs[i]
           && row.entry.fieldID == t.fieldIds[i]
           && row.entry.validStart == t.startTimes[i] && row.entry.validStop == t.endTimes[i]
           && row.entry.priority == Priorities(t)[i] + sh.programPriority
  {
    var es := Expansion(t, fs, reps, sh);
    ExpansionMembers(t, fs, reps, sh);
    forall j | 0 <= j < |es|
      ensures exists i | 0 <= i < |t.raDegs| :: es[j].filter in fs && es[j] == EntryFor(t, i, es[j].filter, sh)
    {
      assert es[j] in es;
    }
  }

  /** A table built by `make_schedule` passes `validate_target_priority`
      against its own base priority exactly when no target priority exceeds
      the maximum target priority (given at least one filter and one
      repetition, so every target has rows). */
  lemma ExpectedPassesPriorityCheck(t: Targets, fs: seq<string>, reps: nat, sh: Shared, maxTargetPriority: real)
    requires Covered(t) && |fs| > 0 && reps > 0
    ensures (forall j | 0 <= j < |Expected(t, fs, reps, sh)| ::
               Expected(t, fs, reps, sh)[j].entry.priority - sh.programPriority <= maxTargetPriority)
        <==> (forall i | 0 <= i < |t.raDegs| :: Priorities(t)[i] <= maxTargetPriority)
  {
    var es := Expansion(t, fs, reps, sh);
    var rows := Expected(t, fs, reps, sh);
    if forall j | 0 <= j < |rows| :: rows[j].entry.priority - sh.programPriority <= maxTargetPriority {
      forall i | 0 <= i < |t.raDegs|
        ensures Priorities(t)[i] <= maxTargetPriority
      {
        ExpansionSlot(t, fs, reps, sh, i, 0, 0);
        var j := BlockStart(i, BlockStart(|fs|, reps)) + (BlockStart(0, reps) + 0);
        assert rows[j].entry == es[j];
      }
    }
    ExpectedRows(t, fs, reps, sh);
  }

  /** The first list `make_schedule` cannot index at target `i`, in the
      order the loop body reads them. */
  function MissingColumn(t: Targets, i: nat): (e: Option<ScheduleError>)
    requires CoveredUpTo(t, i) && i < |t.raDegs|
    ensures e.None? <==> CoveredUpTo(t, i + 1)
    ensures e.Some? ==> e.value.ListTooShort? || e.value.NoTargetPriorities?
    ensures e == Some(ListTooShort("dec_degs", i)) <==> i >= |t.decDegs|
    ensures e == Some(ListTooShort("field_ids", i)) <==> i < |t.decDegs| && i >= |t.fieldIds|
    ensures e == Some(ListTooShort("start_times", i)) <==>
      i < |t.decDegs| && i < |t.fieldIds| && i >= |t.startTimes|
    ensures e == Some(ListTooShort("end_times", i)) <==>
      i < |t.decDegs| && i < |t.fieldIds| && i < |t.startTimes| && i >= |t.endTimes|
    ensures e == Some(NoTargetPriorities) <==>
      i < |t.decDegs| && i < |t.fieldIds| && i < |t.startTimes| && i < |t.endTimes|
      && t.targetPriorities.None?
    ensures e == Some(ListTooShort("target_priorities", i)) <==>
      t.targetPriorities.Some? && CoveredUpTo(t, i) && !CoveredUpTo(t, i + 1)
      && i < |t.decDegs| && i < |t.fieldIds| && i < |t.startTimes| && i < |t.endTimes|
  {
    if i >= |t.decDegs| then Some(ListTooShort("dec_degs", i))
    else if i >= |t.fieldIds| then Some(ListTooShort("field_ids", i))
    else if i >= |t.startTimes| then Some(ListTooShort("start_times", i))
    else if i >= |t.endTimes| then Some(ListTooShort("end_times", i))
    else if t.targetPriorities.None? then Some(NoTargetPriorities)
    else if i >= |t.targetPriorities.value| then Some(ListTooShort("target_priorities", i))
    else None
  }

  /** The two inner loops of `make_schedule` for target `i`: for each filter
      in turn, `reps` rows of the target in that filter go at the end. */
  method AppendTarget(entries: seq<Entry>, t: Targets, i: nat, fs: seq<string>, reps: nat, sh: Shared)
    returns (r: seq<Entry>)
    requires CoveredUpTo(t, i + 1)
    ensures r == entries + Concat(FilterBlocks(t, i, fs, reps, sh))
  {
    r := entries;
    var priority := Validate.CalculateOverallPriority(Priorities(t)[i], sh.programPriority);
    for f := 0 to |fs|
      invariant r == entries + Concat(FilterBlocks(t, i, fs[..f], reps, sh))
    {
      var entry := Entry(
        t.raDegs[i], t.decDegs[i], t.fieldIds[i], fs[f], sh.texp, priority,
        sh.pi, sh.programName, sh.programId, t.startTimes[i], t.endTimes[i],
        false, sh.maximumAirmass, sh.nDither, sh.ditherDistance);
      assert entry == EntryFor(t, i, fs[f], sh);
      ghost var head := r;
      for k := 0 to reps
        invariant r == head + Copies(entry, k)
      {
        r := r + [entry];
      }
      FilterBlocksStep(t, i, fs, reps, sh, f);
    }
    assert fs[..|fs|] == fs;
  }

  /** The outer loop of `make_schedule`: it stops at the first target whose
      row cannot be read, and otherwise collects the rows of every target. */
  method CollectEntries(t: Targets, fs: seq<string>, reps: nat, sh: Shared)
    returns (r: Result<seq<Entry>, ScheduleError>)
    ensures r.Err? <==> !Covered(t)
    ensures r.Err? ==> r.error.ListTooShort? || r.error.NoTargetPriorities?
    ensures r.Err? && r.error.ListTooShort? ==>
      r.error.index < |t.raDegs| && CoveredUpTo(t, r.error.index) && !CoveredUpTo(t, r.error.index + 1)
    ensures r.Ok? ==> Covered(t) && r.value == Expansion(t, fs, reps, sh)
  {
    var entries: seq<Entry> := [];
    for i := 0 to |t.raDegs|
      invariant CoveredUpTo(t, i)
      invariant entries == Concat(TargetBlocks(t, fs, reps, sh, i))
    {
      var missing := MissingColumn(t, i);
      if missing.Some? {
        return Err(missing.value);
      }
      entries := AppendTarget(entries, t, i, fs, reps, sh);
      TargetBlocksStep(t, fs, reps, sh, i);
    }
    return Ok(entries);
  }

  /** `make_schedule`: the loop nest, the concatenation (which raises on no
      rows), the `obsHistID` column and the schema check of every row. */
  method MakeSchedule(t: Targets, sh: Shared, filters: Option<seq<string>>, nexp: int, schemaOk: Row -> bool)
    returns (r: Result<seq<Row>, ScheduleError>)
    ensures (r.Err? && (r.error.ListTooShort? || r.error.NoTargetPriorities?)) <==> !Covered(t)
    ensures r.Err? && r.error.ListTooShort? ==>
      r.error.index < |t.raDegs| && CoveredUpTo(t, r.error.index) && !CoveredUpTo(t, r.error.index + 1)
    ensures r == Err(NothingToConcatenate) <==>
      Covered(t) && Expected(t, FiltersOrDefault(filters), Reps(nexp), sh) == []
    ensures r.Err? ==> !r.error.NotImplemented? && !r.error.NoOverlappingField?
    ensures r.Err? && r.error.Invalid? ==>
      && Covered(t)
      && var rows := Expected(t, FiltersOrDefault(filters), Reps(nexp), sh);
         exists k | 0 <= k < |rows| ::
           && r.error.cause == Validate.SchemaRejected(rows[k])
           && !schemaOk(rows[k])
           && forall j | 0 <= j < k :: schemaOk(rows[j])
    ensures r.Ok? <==>
      && Covered(t)
      && Expected(t, FiltersOrDefault(filters), Reps(nexp), sh) != []
      && forall row | row in Expected(t, FiltersOrDefault(filters), Reps(nexp), sh) :: schemaOk(row)
    ensures r.Ok? ==> r.value == Expected(t, FiltersOrDefault(filters), Reps(nexp), sh)
  {
    var fs := FiltersOrDefault(filters);
    var reps := Reps(nexp);
    var collected := CollectEntries(t, fs, reps, sh);
    if collected.Err? {
      return Err(collected.error);
    }
    var rows := Number(collected.value);
    assert rows == Expected(t, fs, reps, sh);
    if rows == [] {
      return Err(NothingToConcatenate);
    }
    var o := Validate.ValidateScheduleDf(rows, schemaOk);
    if o.Fail? {
      return Err(Invalid(o.error));
    }
    forall row | row in rows
      ensures schemaOk(row)
    {
      var j :| 0 <= j < |rows| && rows[j] == row;
    }
    return Ok(rows);
  }

  /** The `filters` argument of `schedule_ra_dec`: a list, or one name that
      is not a list. */
  datatype FilterArg = FilterList(names: seq<string>) | OneFilter(name: string)

  /** `None` means all summer filters; a single name is wrapped in a list. */
  function FilterNames(filters: Option<FilterArg>): (fs: seq<string>)
    ensures filters.None? ==> fs == SUMMER_FILTERS
    ensures filters.Some? && filters.value.OneFilter? ==> fs == [filters.value.name]
    ensures filters.Some? && filters.value.FilterList? ==> fs == filters.value.names
  {
    match filters
    case None => SUMMER_FILTERS
    case Some(FilterList(names)) => names
    case Some(OneFilter(name)) => [name]
  }

  /** The position and field written into every row: the best summer field
      when `use_field` is set, otherwise the given position with the schema's
      default field ID. */
  function SnapTarget(c: Catalogs, ra: real, dec: real, useField: bool, cosDec: real,
                      sep: (real, real, real, real) -> real, defaults: SchemaDefaults)
    : (r: Result<FieldRow, ScheduleError>)
    requires cosDec != 0.0
    ensures !useField ==> r == Ok(FieldRow(defaults.fieldID, ra, dec))
    ensures useField ==> (r.Err? <==> Fields.GetOverlappingFields(c, ra, dec, true, cosDec) == [])
    ensures r.Err? ==> r.error == NoOverlappingField
    ensures useField && r.Ok? ==>
      && r.value in Fields.GetOverlappingFields(c, ra, dec, true, cosDec)
      && forall f | f in Fields.GetOverlappingFields(c, ra, dec, true, cosDec) ::
           sep(ra, dec, r.value.ra, r.value.dec) <= sep(ra, dec, f.ra, f.dec)
  {
    if !useField then Ok(FieldRow(defaults.fieldID, ra, dec))
    else match Fields.GetBestField(c, ra, dec, true, cosDec, sep)
      case Err(_) => Err(NoOverlappingField)
      case Ok(best) => Ok(best)
  }

  /** One copy of the target per filter: `[x for _ in filters]` for every
      per-target list. */
  function ReplicatedTargets(pos: FieldRow, start: real, end: real, targetPriority: real, n: nat): (t: Targets)
    ensures |t.raDegs| == n && Covered(t) && t.targetPriorities.Some?
    ensures forall k | 0 <= k < n ::
      && t.raDegs[k] == pos.ra && t.decDegs[k] == pos.dec && t.fieldIds[k] == pos.id
      && t.startTimes[k] == start && t.endTimes[k] == end
      && t.targetPriorities.value[k] == targetPriority
  {
    forall k | 0 <= k < n
      ensures && Copies(pos.ra, n)[k] == pos.ra && Copies(pos.dec, n)[k] == pos.dec
              && Copies(pos.id, n)[k] == pos.id && Copies(start, n)[k] == start
              && Copies(end, n)[k] == end && Copies(targetPriority, n)[k] == targetPriority
    {
      CopiesAt(pos.ra, n, k);
      CopiesAt(pos.dec, n, k);
      CopiesAt(pos.id, n, k);
      CopiesAt(start, n, k);
      CopiesAt(end, n, k);
      CopiesAt(targetPriority, n, k);
    }
    Targets(Copies(pos.ra, n), Copies(pos.dec, n), Copies(pos.id, n), Copies(start, n), Copies(end, n),
            Some(Copies(targetPriority, n)))
  }

  /** Every row of the schedule built from replicated targets carries the
      snapped position and field, the window and the overall priority. */
  lemma ReplicatedRows(pos: FieldRow, start: real, end: real, targetPriority: real, fs: seq<string>,
                       reps: nat, sh: Shared)
    ensures var rows := Expected(ReplicatedTargets(pos, start, end, targetPriority, |fs|), fs, reps, sh);
      && |rows| == |fs| * |fs| * reps
      && forall row | row in rows ::
           && row.entry.raDeg == pos.ra && row.entry.decDeg == pos.dec && row.entry.fieldID == pos.id
           && row.entry.validStart == start && row.entry.validStop == end
           && row.entry.priority == targetPriority + sh.programPriority
           && row.entry.filter in fs
  {
    var t := ReplicatedTargets(pos, start, end, targetPriority, |fs|);
    var rows := Expected(t, fs, reps, sh);
    ExpectedLength(t, fs, reps, sh);
    ExpectedRows(t, fs, reps, sh);
    forall row | row in rows
      ensures && row.entry.raDeg == pos.ra && row.entry.decDeg == pos.dec && row.entry.fieldID == pos.id
              && row.entry.validStart == start && row.entry.validStop == end
              && row.entry.priority == targetPriority + sh.programPriority
    {
      var j :| 0 <= j < |rows| && rows[j] == row;
      var i :| && 0 <= i < |t.raDegs|
        && row.entry.raDeg == t.raDegs[i] && row.entry.decDeg == t.decDegs[i]
        && row.entry.fieldID == t.fieldIds[i]
        && row.entry.validStart == t.startTimes[i] && row.entry.validStop == t.endTimes[i]
        && row.entry.priority == Priorities(t)[i] + sh.programPriority;
    }
  }

  /** The arguments `schedule_ra_dec` passes on to every row. */
  function RaDecShared(pi: string, programName: string, programId: int, programPriority: real, tExp: real,
                       nDither: int, ditherDistance: real, defaults: SchemaDefaults): Shared
  {
    Shared(programName, programId, pi, programPriority, tExp, nDither, ditherDistance, defaults.maxAirmass)
  }

  /** The validity window of `schedule_ra_dec`: from now until a day later,
      unless the caller gives either end. */
  function WindowStart(startTime: Option<real>, now: real): real
  {
    if startTime.Some? then startTime.value else now
  }

  function WindowEnd(endTime: Option<real>, now: real): real
  {
    if endTime.Some? then endTime.value else now + 1.0
  }

  /** Every row carries the target position and field, the window, the
      summed priority, one of the filters and the program columns. */
  predicate RowsCarry(rows: seq<Row>, pos: FieldRow, start: real, end: real, targetPriority: real,
                      fs: seq<string>, sh: Shared)
  {
    forall row | row in rows ::
      && row.entry.raDeg == pos.ra && row.entry.decDeg == pos.dec && row.entry.fieldID == pos.id
      && row.entry.validStart == start && row.entry.validStop == end
      && row.entry.priority == targetPriority + sh.programPriority
      && row.entry.filter in fs
      && row.entry.progPI == sh.pi && row.entry.progName == sh.programName
      && row.entry.progID == sh.programId && row.entry.maxAirmass == sh.maximumAirmass
  }

  /** The schedule `schedule_ra_dec` asks for once the position is settled:
      one target copy per filter, the window defaulting to (now, now + 1
      day). */
  function RaDecRows(pos: FieldRow, startTime: Option<real>, endTime: Option<real>, now: real,
                     targetPriority: real, fs: seq<string>, nExp: int, sh: Shared): seq<Row>
  {
    Expected(ReplicatedTargets(pos, WindowStart(startTime, now), WindowEnd(endTime, now), targetPriority, |fs|),
             fs, Reps(nExp), sh)
  }

  /** The replicated schedule is empty exactly when there are no filters or
      no repetitions. */
  lemma RaDecRowsEmpty(pos: FieldRow, startTime: Option<real>, endTime: Option<real>, now: real,
                       targetPriority: real, fs: seq<string>, nExp: int, sh: Shared)
    ensures RaDecRows(pos, startTime, endTime, now, targetPriority, fs, nExp, sh) == [] <==>
      fs == [] || Reps(nExp) == 0
  {
    ExpectedLength(ReplicatedTargets(pos, WindowStart(startTime, now), WindowEnd(endTime, now), targetPriority, |fs|),
                   fs, Reps(nExp), sh);
    SquareTimesZero(|fs|, Reps(nExp));
  }

  lemma SquareTimesZero(a: nat, b: nat)
    ensures a * a * b == 0 <==> a == 0 || b == 0
  {
    if a != 0 && b != 0 {
      assert a * a >= 1;
      assert a * a * b >= 1;
    }
  }

  /** Every row of the replicated schedule carries the snapped target, the
      default window, the summed priority, one of the filters and the shared
      program columns; there are |filters|² × reps of them. */
  lemma RaDecRowsCarry(pos: FieldRow, startTime: Option<real>, endTime: Option<real>, now: real,
                       targetPriority: real, fs: seq<string>, nExp: int, sh: Shared)
    ensures var rows := RaDecRows(pos, startTime, endTime, now, targetPriority, fs, nExp, sh);
      && |rows| == |fs| * |fs| * Reps(nExp)
      && RowsCarry(rows, pos, WindowStart(startTime, now), WindowEnd(endTime, now), targetPriority, fs, sh)
  {
    var start, end := WindowStart(startTime, now), WindowEnd(endTime, now);
    var t := ReplicatedTargets(pos, start, end, targetPriority, |fs|);
    ReplicatedRows(pos, start, end, targetPriority, fs, Reps(nExp), sh);
    ExpectedRows(t, fs, Reps(nExp), sh);
  }

  /** `schedule_ra_dec`: default window (now, a day later), the summer-only
      guard, filter defaulting and wrapping, the optional field snap, then
      `make_schedule` on one target copy per filter. `now` is the clock, in
      MJD days; the separation and `cos(dec)` are inputs of the field snap. */
  method ScheduleRaDec(ra: real, dec: real, pi: string, programName: string, programId: int,
                       targetPriority: real, programPriority: real, filters: Option<FilterArg>,
                       tExp: real, nExp: int, nDither: int, ditherDistance: real,
                       startTime: Option<real>, endTime: Option<real>, summer: bool, useField: bool,
                       now: real, c: Catalogs, cosDec: real, sep: (real, real, real, real) -> real,
                       defaults: SchemaDefaults, schemaOk: Row -> bool)
    returns (r: Result<seq<Row>, ScheduleError>)
    requires cosDec != 0.0
    ensures !summer ==> r == Err(NotImplemented)
    ensures summer && useField && Fields.GetOverlappingFields(c, ra, dec, true, cosDec) == [] ==>
      r == Err(NoOverlappingField)
    ensures r.Err? ==> !r.error.ListTooShort? && !r.error.NoTargetPriorities?
    ensures summer && SnapTarget(c, ra, dec, useField, cosDec, sep, defaults).Ok? &&
            FilterNames(filters) != [] && Reps(nExp) > 0 && r.Err? ==>
      r.error.Invalid?
    ensures summer && SnapTarget(c, ra, dec, useField, cosDec, sep, defaults).Ok? &&
            (FilterNames(filters) == [] || Reps(nExp) == 0) ==>
      r == Err(NothingToConcatenate)
    ensures r.Ok? <==>
      && summer
      && SnapTarget(c, ra, dec, useField, cosDec, sep, defaults).Ok?
      && FilterNames(filters) != []
      && Reps(nExp) > 0
      && forall row | row in RaDecRows(SnapTarget(c, ra, dec, useField, cosDec, sep, defaults).value,
                                       startTime, endTime, now, targetPriority, FilterNames(filters), nExp,
                                       RaDecShared(pi, programName, programId, programPriority, tExp,
                                                   nDither, ditherDistance, defaults)) ::
           schemaOk(row)
    ensures r.Ok? ==>
      r.value == RaDecRows(SnapTarget(c, ra, dec, useField, cosDec, sep, defaults).value,
                           startTime, endTime, now, targetPriority, FilterNames(filters), nExp,
                           RaDecShared(pi, programName, programId, programPriority, tExp,
                                       nDither, ditherDistance, defaults))
    ensures r.Ok? ==>
      && summer
      && SnapTarget(c, ra, dec, useField, cosDec, sep, defaults).Ok?
      && |r.value| == |FilterNames(filters)| * |FilterNames(filters)| * Reps(nExp)
      && RowsCarry(r.value, SnapTarget(c, ra, dec, useField, cosDec, sep, defaults).value,
                   WindowStart(startTime, now), WindowEnd(endTime, now), targetPriority, FilterNames(filters),
                   RaDecShared(pi, programName, programId, programPriority, tExp, nDither, ditherDistance, defaults))
      && forall row | row in r.value :: schemaOk(row)
  {
    var start, end := WindowStart(startTime, now), WindowEnd(endTime, now);
    if !summer {
      return Err(NotImplemented);
    }
    var fs := FilterNames(filters);
    var snapped := SnapTarget(c, ra, dec, useField, cosDec, sep, defaults);
    if snapped.Err? {
      return Err(snapped.error);
    }
    var pos := snapped.value;
    var t := ReplicatedTargets(pos, start, end, targetPriority, |fs|);
    var sh := RaDecShared(pi, programName, programId, programPriority, tExp, nDither, ditherDistance, defaults);
    r := MakeSchedule(t, sh, Some(fs), nExp, schemaOk);
    RaDecRowsCarry(pos, startTime, endTime, now, targetPriority, fs, nExp, sh);
    assert Expected(t, fs, Reps(nExp), sh) == RaDecRows(pos, startTime, endTime, now, targetPriority, fs, nExp, sh);
    RaDecRowsEmpty(pos, startTime, endTime, now, targetPriority, fs, nExp, sh);
  }
}
