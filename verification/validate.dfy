/** The validation gates of wintertoo/validate.py: per-row checks over a
    schedule table that stop at the first offending row, the case-insensitive
    filter check, and the request-level check that groups rows by program.
    The JSON schema, target visibility and the program database are
    parameters. */
module Validate {
  import opened Wrappers
  import opened Seqs
  import opened Data

  /** Why a schedule was refused; row errors carry the offending row. */
  datatype ValidationError =
    | SchemaRejected(row: Row)
    | NotVisible(row: Row, mjd: real)
    | PriorityTooHigh(row: Row, maxPriority: real)
    | PiMismatch(row: Row, programPi: string)
    | StartAfterStop(row: Row)
    | StartBeforeProgram(row: Row)
    | StopAfterProgram(row: Row)
    | NoProgramMatch(progName: string)
    | MultipleProgramMatches(progName: string)

  /** `validate_schedule_df`: every row, in order, against the schema. */
  method ValidateScheduleDf(s: seq<Row>, schemaOk: Row -> bool) returns (o: Outcome<ValidationError>)
    ensures o.Pass? <==> forall k | 0 <= k < |s| :: schemaOk(s[k])
    ensures o.Fail? ==> exists k | 0 <= k < |s| ::
      && o.error == SchemaRejected(s[k])
      && !schemaOk(s[k])
      && forall j | 0 <= j < k :: schemaOk(s[j])
  {
    for k := 0 to |s|
      invariant forall j | 0 <= j < k :: schemaOk(s[j])
    {
      if !schemaOk(s[k]) {
        return Fail(SchemaRejected(s[k]));
      }
    }
    return Pass;
  }

  /** The target of `r` is up both at the start and at the end of its window. */
  predicate VisibleAtBothEnds(r: Row, isUp: (real, real, real) -> bool)
  {
    isUp(r.entry.validStart, r.entry.raDeg, r.entry.decDeg)
    && isUp(r.entry.validStop, r.entry.raDeg, r.entry.decDeg)
  }

  /** `validate_target_visibility`: rows in order, each at `validStart` and
      then at `validStop`; the error names the first time the target is down. */
  method ValidateTargetVisibility(s: seq<Row>, isUp: (real, real, real) -> bool)
    returns (o: Outcome<ValidationError>)
    ensures o.Pass? <==> forall k | 0 <= k < |s| :: VisibleAtBothEnds(s[k], isUp)
    ensures o.Fail? ==> exists k | 0 <= k < |s| ::
      && !VisibleAtBothEnds(s[k], isUp)
      && (forall j | 0 <= j < k :: VisibleAtBothEnds(s[j], isUp))
      && o.error == NotVisible(s[k],
           if isUp(s[k].entry.validStart, s[k].entry.raDeg, s[k].entry.decDeg)
           then s[k].entry.validStop else s[k].entry.validStart)
  {
    for k := 0 to |s|
      invariant forall j | 0 <= j < k :: VisibleAtBothEnds(s[j], isUp)
    {
      var row := s[k];
      var times := [row.entry.validStart, row.entry.validStop];
      assert times[0] == row.entry.validStart && times[1] == row.entry.validStop;
      for t := 0 to 2
        invariant forall u | 0 <= u < t :: isUp(times[u], row.entry.raDeg, row.entry.decDeg)
      {
        if !isUp(times[t], row.entry.raDeg, row.entry.decDeg) {
          assert !VisibleAtBothEnds(s[k], isUp);
          assert times[t] == if isUp(row.entry.validStart, row.entry.raDeg, row.entry.decDeg)
                             then row.entry.validStop else row.entry.validStart;
          return Fail(NotVisible(row, times[t]));
        }
      }
      assert isUp(times[0], row.entry.raDeg, row.entry.decDeg) && isUp(times[1], row.entry.raDeg, row.entry.decDeg);
    }
    return Pass;
  }

  /** `calculate_overall_priority`: a target's priority on top of its
      program's base priority. */
  function CalculateOverallPriority(targetPriority: real, programBasePriority: real): real
  {
    targetPriority + programBasePriority
  }

  /** `validate_target_priority`: no row may exceed the overall priority of a
      target at the maximum target priority; reaching it is allowed. */
  method ValidateTargetPriority(s: seq<Row>, programBasePriority: real, maxTargetPriority: real)
    returns (o: Outcome<ValidationError>)
    ensures o.Pass? <==> forall k | 0 <= k < |s| ::
      s[k].entry.priority - programBasePriority <= maxTargetPriority
    ensures o.Fail? ==> exists k | 0 <= k < |s| ::
      && s[k].entry.priority - programBasePriority > maxTargetPriority
      && (forall j | 0 <= j < k :: s[j].entry.priority - programBasePriority <= maxTargetPriority)
      && o.error == PriorityTooHigh(s[k], maxTargetPriority + programBasePriority)
  {
    var maxPriority := CalculateOverallPriority(maxTargetPriority, programBasePriority);
    for k := 0 to |s|
      invariant forall j | 0 <= j < k :: s[j].entry.priority <= maxPriority
    {
      if s[k].entry.priority > maxPriority {
        return Fail(PriorityTooHigh(s[k], maxPriority));
      }
    }
    return Pass;
  }

  /** ASCII lower-casing of one character. */
  function LowerChar(c: char): char
  {
    if 'A' <= c <= 'Z' then (c as int + 32) as char else c
  }

  function Lower(s: string): (r: string)
  {
    seq(|s|, i requires 0 <= i < |s| => LowerChar(s[i]))
  }

  /** `validate_filter`: the lower-cased name must be a summer filter. */
  function ValidateFilter(filterName: string): bool
  {
    Lower(filterName) in SUMMER_FILTERS
  }

  lemma LowerIsOneLetter(n: string, c: char)
    requires 'a' <= c <= 'z'
    ensures Lower(n) == [c] <==> n == [c] || n == [(c as int - 32) as char]
  {
    if Lower(n) == [c] {
      assert |n| == 1 && Lower(n)[0] == LowerChar(n[0]) == c;
      assert n == [n[0]];
    }
    if n == [(c as int - 32) as char] {
      assert Lower(n) == [c] by { assert Lower(n)[0] == c; }
    }
    if n == [c] {
      assert Lower(n) == [c] by { assert Lower(n)[0] == c; }
    }
  }

  /** The filter check accepts exactly the four summer filters, in either
      case. */
  lemma ValidateFilterAcceptsExactly(filterName: string)
    ensures ValidateFilter(filterName) <==> filterName in ["u", "g", "r", "i", "U", "G", "R", "I"]
  {
    LowerIsOneLetter(filterName, 'u');
    LowerIsOneLetter(filterName, 'g');
    LowerIsOneLetter(filterName, 'r');
    LowerIsOneLetter(filterName, 'i');
    assert ['u'] == "u" && ['g'] == "g" && ['r'] == "r" && ['i'] == "i";
    assert [('u' as int - 32) as char] == "U" && [('g' as int - 32) as char] == "G";
    assert [('r' as int - 32) as char] == "R" && [('i' as int - 32) as char] == "I";
  }

  /** `validate_target_pi`: every row's PI equals the program's PI exactly. */
  method ValidateTargetPi(s: seq<Row>, progPi: string) returns (o: Outcome<ValidationError>)
    ensures o.Pass? <==> forall k | 0 <= k < |s| :: s[k].entry.progPI == progPi
    ensures o.Fail? ==> exists k | 0 <= k < |s| ::
      && s[k].entry.progPI != progPi
      && (forall j | 0 <= j < k :: s[j].entry.progPI == progPi)
      && o.error == PiMismatch(s[k], progPi)
  {
    for k := 0 to |s|
      invariant forall j | 0 <= j < k :: s[j].entry.progPI == progPi
    {
      if s[k].entry.progPI != progPi {
        return Fail(PiMismatch(s[k], progPi));
      }
    }
    return Pass;
  }

  /** A row's window is ordered and lies inside the program's dates
      (boundaries included). */
  predicate DatesOk(r: Row, programStart: real, programEnd: real)
  {
    programStart <= r.entry.validStart <= r.entry.validStop <= programEnd
  }

  /** `validate_target_dates`: per row, an inverted window first, then a start
      before the program, then a stop after it. */
  method ValidateTargetDates(s: seq<Row>, programStart: real, programEnd: real)
    returns (o: Outcome<ValidationError>)
    ensures o.Pass? <==> forall k | 0 <= k < |s| :: DatesOk(s[k], programStart, programEnd)
    ensures o.Fail? ==> exists k | 0 <= k < |s| ::
      && !DatesOk(s[k], programStart, programEnd)
      && (forall j | 0 <= j < k :: DatesOk(s[j], programStart, programEnd))
      && (o.error.StartAfterStop? <==> s[k].entry.validStart > s[k].entry.validStop)
      && (o.error.StartBeforeProgram? <==>
            s[k].entry.validStart <= s[k].entry.validStop && s[k].entry.validStart < programStart)
      && (o.error.StopAfterProgram? <==>
            programStart <= s[k].entry.validStart <= s[k].entry.validStop && s[k].entry.validStop > programEnd)
      && o.error.row == s[k]
  {
    for k := 0 to |s|
      invariant forall j | 0 <= j < k :: DatesOk(s[j], programStart, programEnd)
    {
      var row := s[k];
      var err: Option<ValidationError> := None;
      if row.entry.validStart > row.entry.validStop {
        err := Some(StartAfterStop(row));
      } else if row.entry.validStart < programStart {
        err := Some(StartBeforeProgram(row));
      } else if row.entry.validStop > programEnd {
        err := Some(StopAfterProgram(row));
      }
      if err.Some? {
        return Fail(err.value);
      }
    }
    return Pass;
  }

  /** Characters Python's `str.strip()` removes: those `str.isspace()` holds for. */
  predicate IsSpace(c: char)
  {
    || c == '\t' || c == '\n' || c == '\U{0B}' || c == '\U{0C}' || c == '\r'
    || '\U{1C}' <= c <= '\U{1F}' || c == ' ' || c == '\U{85}' || c == '\U{A0}'
    || c == '\U{1680}' || '\U{2000}' <= c <= '\U{200A}' || c == '\U{2028}' || c == '\U{2029}'
    || c == '\U{202F}' || c == '\U{205F}' || c == '\U{3000}'
  }

  function StripLeft(s: string): (r: string)
    ensures |r| <= |s| && r == s[|s| - |r|..]
    ensures forall i | 0 <= i < |s| - |r| :: IsSpace(s[i])
    ensures r == [] || !IsSpace(r[0])
  {
    if s != [] && IsSpace(s[0]) then StripLeft(s[1..]) else s
  }

  function StripRight(s: string): (r: string)
    ensures |r| <= |s| && r == s[..|r|]
    ensures forall i | |r| <= i < |s| :: IsSpace(s[i])
    ensures r == [] || !IsSpace(r[|r| - 1])
  {
    if s != [] && IsSpace(s[|s| - 1]) then StripRight(s[..|s| - 1]) else s
  }

  /** `str.strip()`: the middle of `s` once the whitespace on both ends is
      gone. */
  function Strip(s: string): (r: string)
    ensures exists i, j | 0 <= i <= j <= |s| ::
      && r == s[i..j]
      && (forall k | 0 <= k < i :: IsSpace(s[k]))
      && (forall k | j <= k < |s| :: IsSpace(s[k]))
    ensures r == [] || (!IsSpace(r[0]) && !IsSpace(r[|r| - 1]))
  {
    var l := StripLeft(s);
    var r := StripRight(l);
    var i := |s| - |l|;
    assert r == s[i..i + |r|];
    r
  }

  /** Stripping twice strips nothing more. */
  lemma StripIdempotent(s: string)
    ensures Strip(Strip(s)) == Strip(s)
  {
    var r := Strip(s);
    assert StripLeft(r) == r;
    assert StripRight(r) == r;
  }

  /** The program-database row `get_program_details` returns, with the dates
      converted to MJD. */
  datatype ProgramRecord = ProgramRecord(piname: string, basepriority: real, startdate: real, enddate: real)

  function ProgNames(s: seq<Row>): (names: seq<string>)
    ensures |names| == |s|
    ensures forall k | 0 <= k < |s| :: names[k] == s[k].entry.progName
  {
    seq(|s|, k requires 0 <= k < |s| => s[k].entry.progName)
  }

  function HasProgName(name: string): Row -> bool
  {
    (r: Row) => r.entry.progName == name
  }

  /** What the per-program checks demand of one row, given the program
      records found for its program name. */
  predicate RowAccepted(r: Row, records: seq<ProgramRecord>, maxTargetPriority: real)
  {
    && |records| == 1
    && r.entry.progPI == Strip(records[0].piname)
    && r.entry.priority - records[0].basepriority <= maxTargetPriority
    && DatesOk(r, records[0].startdate, records[0].enddate)
  }

  /** The verdict of `validate_schedule_request`, row by row: the schema and
      visibility hold everywhere, and each row's program has exactly one
      record, whose PI, base priority and dates the row respects. */
  predicate RequestOk(s: seq<Row>, apiKey: string, lookup: (string, string) -> seq<ProgramRecord>,
                      schemaOk: Row -> bool, isUp: (real, real, real) -> bool, maxTargetPriority: real)
  {
    && (forall k | 0 <= k < |s| :: schemaOk(s[k]))
    && (forall k | 0 <= k < |s| :: VisibleAtBothEnds(s[k], isUp))
    && (forall k | 0 <= k < |s| :: RowAccepted(s[k], lookup(s[k].entry.progName, apiKey), maxTargetPriority))
  }

  /** The checks `validate_schedule_request` runs for one program name, on
      that program's rows only: the PI (stripped), then the priority, then
      the dates, each against the program's single record. */
  method ValidateProgramRows(s: seq<Row>, name: string, record: ProgramRecord, maxTargetPriority: real)
    returns (o: Outcome<ValidationError>)
    ensures o.Pass? <==> forall k | 0 <= k < |s| && s[k].entry.progName == name ::
      RowAccepted(s[k], [record], maxTargetPriority)
    ensures o.Fail? ==> (
      || o.error.PiMismatch? || o.error.PriorityTooHigh? || o.error.StartAfterStop?
      || o.error.StartBeforeProgram? || o.error.StopAfterProgram?)
  {
    var res := Filter(s, HasProgName(name));
    var programPi := Strip(record.piname);
    o := ValidateTargetPi(res, programPi);
    if o.Fail? {
      var k :| 0 <= k < |res| && res[k].entry.progPI != programPi;
      assert res[k] in s && HasProgName(name)(res[k]);
      assert !RowAccepted(res[k], [record], maxTargetPriority);
      return;
    }
    o := ValidateTargetPriority(res, record.basepriority, maxTargetPriority);
    if o.Fail? {
      var k :| 0 <= k < |res| && res[k].entry.priority - record.basepriority > maxTargetPriority;
      assert res[k] in s && HasProgName(name)(res[k]);
      assert !RowAccepted(res[k], [record], maxTargetPriority);
      return;
    }
    o := ValidateTargetDates(res, record.startdate, record.enddate);
    if o.Fail? {
      var k :| 0 <= k < |res| && !DatesOk(res[k], record.startdate, record.enddate);
      assert res[k] in s && HasProgName(name)(res[k]);
      assert !RowAccepted(res[k], [record], maxTargetPriority);
      return;
    }
    forall k | 0 <= k < |s| && s[k].entry.progName == name
      ensures RowAccepted(s[k], [record], maxTargetPriority)
    {
      assert HasProgName(name)(s[k]);
      assert s[k] in res;
    }
  }

  /** The loop of `validate_schedule_request` over program names: for each,
      exactly one record must come back, and then that program's rows must
      pass the per-program checks. */
  method ValidatePrograms(s: seq<Row>, names: seq<string>, apiKey: string,
                          lookup: (string, string) -> seq<ProgramRecord>, maxTargetPriority: real)
    returns (o: Outcome<ValidationError>)
    requires forall name | name in names :: name in ProgNames(s)
    ensures o.Pass? <==> forall k | 0 <= k < |s| && s[k].entry.progName in names ::
      RowAccepted(s[k], lookup(s[k].entry.progName, apiKey), maxTargetPriority)
    ensures o.Fail? && o.error.NoProgramMatch? ==>
      o.error.progName in names && |lookup(o.error.progName, apiKey)| == 0
    ensures o.Fail? && o.error.MultipleProgramMatches? ==>
      o.error.progName in names && |lookup(o.error.progName, apiKey)| > 1
  {
    for n := 0 to |names|
      invariant forall k | 0 <= k < |s| && s[k].entry.progName in names[..n] ::
        RowAccepted(s[k], lookup(s[k].entry.progName, apiKey), maxTargetPriority)
    {
      var name := names[n];
      var records := lookup(name, apiKey);
      if |records| != 1 {
        assert name in names && name in ProgNames(s);
        var k :| 0 <= k < |s| && ProgNames(s)[k] == name;
        assert !RowAccepted(s[k], lookup(s[k].entry.progName, apiKey), maxTargetPriority);
      }
      if |records| == 0 {
        return Fail(NoProgramMatch(name));
      }
      if |records| > 1 {
        return Fail(MultipleProgramMatches(name));
      }
      assert records == [records[0]];
      o := ValidateProgramRows(s, name, records[0], maxTargetPriority);
      if o.Fail? {
        var k :| 0 <= k < |s| && s[k].entry.progName == name && !RowAccepted(s[k], [records[0]], maxTargetPriority);
        assert lookup(s[k].entry.progName, apiKey) == [records[0]];
        return;
      }
      assert names[..n + 1] == names[..n] + [name];
    }
    assert names[..|names|] == names;
    return Pass;
  }

  /** `validate_schedule_request`: schema and visibility over every row, then
      per distinct program name its records (exactly one) and the PI,
      priority and date checks over that program's rows. The source visits
      the names in set order; here they come in order of first occurrence,
      which changes only which error is reported, not whether one is. */
  method ValidateScheduleRequest(s: seq<Row>, apiKey: string, lookup: (string, string) -> seq<ProgramRecord>,
                                 schemaOk: Row -> bool, isUp: (real, real, real) -> bool,
                                 maxTargetPriority: real)
    returns (o: Outcome<ValidationError>)
    ensures o.Pass? <==> RequestOk(s, apiKey, lookup, schemaOk, isUp, maxTargetPriority)
    ensures o.Fail? && o.error.NoProgramMatch? ==>
      o.error.progName in ProgNames(s) && |lookup(o.error.progName, apiKey)| == 0
    ensures o.Fail? && o.error.MultipleProgramMatches? ==>
      o.error.progName in ProgNames(s) && |lookup(o.error.progName, apiKey)| > 1
  {
    o := ValidateScheduleDf(s, schemaOk);
    if o.Fail? {
      return;
    }
    o := ValidateTargetVisibility(s, isUp);
    if o.Fail? {
      return;
    }
    var names := Distinct(ProgNames(s));
    o := ValidatePrograms(s, names, apiKey, lookup, maxTargetPriority);
    forall k | 0 <= k < |s|
      ensures s[k].entry.progName in names
    {
      assert ProgNames(s)[k] in ProgNames(s);
    }
  }
}
