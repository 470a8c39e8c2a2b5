/** The request builders of wintertoo/make_request.py that do not depend on
    the database or astropy: the parsing and branching of
    `make_untimed_request` (list splitting, the text before a colon, filter
    positions, the field-selection branches and the optional keys), and the
    row numbering of `make_too_dataframe` threaded through
    `make_too_request_from_df`. File writes, timestamps, the visibility and
    program checks and the coordinate transforms are not modelled; where
    their outcome matters it is an input. */
module MakeRequest {
  import opened Wrappers
  import opened Seqs

  // ---------------------------------------------------------------------
  // Splitting list-valued text fields

  /** The separators of the pattern `,|\[|\]`. */
  predicate IsDelimiter(c: char)
  {
    c == ',' || c == '[' || c == ']'
  }

  function NotDelimiter(): char -> bool
  {
    (c: char) => !IsDelimiter(c)
  }

  predicate NoDelimiter(p: string)
  {
    forall k | 0 <= k < |p| :: !IsDelimiter(p[k])
  }

  /** `re.split(r',|\[|\]', s)`: the pieces between separators, empty ones
      included, so there is one piece more than there are separators. */
  function Split(s: string): (pieces: seq<string>)
    ensures |pieces| >= 1
    ensures forall p | p in pieces :: NoDelimiter(p)
  {
    if s == [] then [""]
    else
      var init := Split(s[..|s| - 1]);
      var c := s[|s| - 1];
      if IsDelimiter(c) then init + [""]
      else
        var last := init[|init| - 1] + [c];
        assert init[|init| - 1] in init;
        assert forall p | p in init[..|init| - 1] :: p in init;
        init[..|init| - 1] + [last]
  }

  /** Gluing the pieces back gives the text with its separators removed. */
  lemma {:induction false} SplitJoin(s: string)
    ensures Concat(Split(s)) == Filter(s, NotDelimiter())
  {
    if s != [] {
      var prefix := s[..|s| - 1];
      var c := s[|s| - 1];
      SplitJoin(prefix);
      assert s == prefix + [c];
      FilterAppend(prefix, [c], NotDelimiter());
      FilterOne(c, NotDelimiter());
      SplitStep(Split(prefix), c);
    }
  }

  /** One more character extends the last piece or opens an empty one. */
  lemma SplitStep(init: seq<string>, c: char)
    requires |init| >= 1
    ensures Concat(if IsDelimiter(c) then init + [""]
                   else init[..|init| - 1] + [init[|init| - 1] + [c]])
         == Concat(init) + (if IsDelimiter(c) then [] else [c])
  {
    if IsDelimiter(c) {
      ConcatSnoc(init, "");
    } else {
      var front := init[..|init| - 1];
      var last := init[|init| - 1];
      assert init == front + [last];
      ConcatSnoc(front, last);
      ConcatSnoc(front, last + [c]);
    }
  }

  lemma FilterOne<T>(x: T, p: T -> bool)
    ensures Filter([x], p) == if p(x) then [x] else []
  {
    assert [x][1..] == [];
  }

  /** There is one piece more than there are separators. */
  lemma {:induction false} SplitCount(s: string)
    ensures |Split(s)| == Count(s, (c: char) => IsDelimiter(c)) + 1
  {
    if s != [] {
      SplitCount(s[..|s| - 1]);
      assert s == s[..|s| - 1] + [s[|s| - 1]];
      FilterAppend(s[..|s| - 1], [s[|s| - 1]], (c: char) => IsDelimiter(c));
    }
  }

  /** The separators of `s`, in order. */
  function Separators(s: string): (seps: seq<char>)
    ensures forall c | c in seps :: IsDelimiter(c)
  {
    if s == [] then []
    else Separators(s[..|s| - 1]) + (if IsDelimiter(s[|s| - 1]) then [s[|s| - 1]] else [])
  }

  /** The pieces with the separators put back between them, in order. */
  function Interleave(pieces: seq<string>, seps: seq<char>): string
    requires |pieces| == |seps| + 1
  {
    if seps == [] then pieces[0]
    else Interleave(pieces[..|pieces| - 1], seps[..|seps| - 1]) + [seps[|seps| - 1]] + pieces[|pieces| - 1]
  }

  /** Appending to the last piece appends to the interleaved text. */
  lemma InterleaveExtendLast(pieces: seq<string>, seps: seq<char>, x: string)
    requires |pieces| == |seps| + 1
    ensures Interleave(pieces[..|pieces| - 1] + [pieces[|pieces| - 1] + x], seps) == Interleave(pieces, seps) + x
  {
    var extended := pieces[..|pieces| - 1] + [pieces[|pieces| - 1] + x];
    if seps != [] {
      assert extended[..|extended| - 1] == pieces[..|pieces| - 1];
    }
  }

  /** A separator followed by an empty piece appends the separator. */
  lemma InterleaveAppendSeparator(pieces: seq<string>, seps: seq<char>, c: char)
    requires |pieces| == |seps| + 1
    ensures Interleave(pieces + [""], seps + [c]) == Interleave(pieces, seps) + [c]
  {
    var ps, ss := pieces + [""], seps + [c];
    assert ps[..|ps| - 1] == pieces && ss[..|ss| - 1] == seps;
  }

  /** The split is exact: putting the separators of `s` back between the
      pieces, in order, gives `s` again, so every piece boundary sits at a
      separator. */
  lemma {:induction false} SplitRoundTrip(s: string)
    ensures |Split(s)| == |Separators(s)| + 1
    ensures Interleave(Split(s), Separators(s)) == s
  {
    if s != [] {
      SplitRoundTrip(s[..|s| - 1]);
      SplitRoundTripStep(s);
    }
  }

  /** The inductive step of SplitRoundTrip: the round trip of the text
      without its last character carries over to the whole text. */
  lemma SplitRoundTripStep(s: string)
    requires s != []
    requires |Split(s[..|s| - 1])| == |Separators(s[..|s| - 1])| + 1
    requires Interleave(Split(s[..|s| - 1]), Separators(s[..|s| - 1])) == s[..|s| - 1]
    ensures |Split(s)| == |Separators(s)| + 1
    ensures Interleave(Split(s), Separators(s)) == s
  {
    var prefix, c := s[..|s| - 1], s[|s| - 1];
    var init, seps := Split(prefix), Separators(prefix);
    SplitLast(s);
    if IsDelimiter(c) {
      InterleaveAppendSeparator(init, seps, c);
    } else {
      InterleaveExtendLast(init, seps, [c]);
    }
    assert prefix + [c] == s;
  }

  /** The last character of `s` either opens a new piece after a separator
      or extends the last piece. */
  lemma SplitLast(s: string)
    requires s != []
    ensures var prefix, c := s[..|s| - 1], s[|s| - 1];
      && (IsDelimiter(c) ==> Split(s) == Split(prefix) + [""] && Separators(s) == Separators(prefix) + [c])
      && (!IsDelimiter(c) ==>
            && Split(s) == Split(prefix)[..|Split(prefix)| - 1] + [Split(prefix)[|Split(prefix)| - 1] + [c]]
            && Separators(s) == Separators(prefix))
  {
  }

  function NonEmpty(): string -> bool
  {
    (p: string) => p != []
  }

  /** `[i for i in re.split(r',|\[|\]', s) if i]`. */
  function Tokens(s: string): (tokens: seq<string>)
    ensures forall tok | tok in tokens :: tok != [] && NoDelimiter(tok)
  {
    Filter(Split(s), NonEmpty())
  }

  /** Dropping empty pieces loses no character. */
  lemma {:induction false} ConcatNonEmpty(ss: seq<string>)
    ensures Concat(Filter(ss, NonEmpty())) == Concat(ss)
  {
    if ss != [] {
      var init := ss[..|ss| - 1];
      var last := ss[|ss| - 1];
      ConcatNonEmpty(init);
      assert ss == init + [last];
      FilterAppend(init, [last], NonEmpty());
      if last == [] {
        assert Filter([last], NonEmpty()) == [];
        assert Filter(ss, NonEmpty()) == Filter(init, NonEmpty());
      } else {
        assert Filter([last], NonEmpty()) == [last];
        ConcatSnoc(Filter(init, NonEmpty()), last);
      }
    }
  }

  /** The tokens, glued together, are the text without its separators: the
      split loses only separators and empty pieces. */
  lemma TokensJoin(s: string)
    ensures Concat(Tokens(s)) == Filter(s, NotDelimiter())
  {
    ConcatNonEmpty(Split(s));
    SplitJoin(s);
  }

  // ---------------------------------------------------------------------
  // The text before the first colon

  /** `str(x)[:str(x).index(":")]`; `None` where `index` raises ValueError. */
  function BeforeColon(s: string): (r: Option<string>)
    ensures r.None? <==> ':' !in s
    ensures r.Some? ==> |r.value| < |s| && r.value == s[..|r.value|] && s[|r.value|] == ':' && ':' !in r.value
  {
    match IndexOf(s, ':')
    case None => None
    case Some(k) => Some(s[..k])
  }

  // ---------------------------------------------------------------------
  // Filter positions

  datatype UntimedError =
    | NoColon(field: string)
    | UnknownFilter(name: string)
    | NotANumber(token: string)
    | MissingFieldOption(index: nat)
    | FieldSelectionUnbound

  /** The loop that turns filter names into 1-based positions in `filters`;
      `list.index` raises ValueError on the first unknown name. */
  method FilterIds(names: seq<string>, filters: seq<string>) returns (r: Result<seq<int>, UntimedError>)
    ensures r.Ok? <==> forall n | n in names :: n in filters
    ensures r.Ok? ==> |r.value| == |names| && forall k | 0 <= k < |names| ::
      && 1 <= r.value[k] <= |filters|
      && filters[r.value[k] - 1] == names[k]
      && names[k] !in filters[..r.value[k] - 1]
    ensures r.Err? ==> exists k | 0 <= k < |names| ::
      && r.error == UnknownFilter(names[k]) && names[k] !in filters
      && forall j | 0 <= j < k :: names[j] in filters
  {
    var ids: seq<int> := [];
    for k := 0 to |names|
      invariant |ids| == k
      invariant forall j | 0 <= j < k :: names[j] in filters
      invariant forall j | 0 <= j < k ::
        && 1 <= ids[j] <= |filters|
        && filters[ids[j] - 1] == names[j]
        && names[j] !in filters[..ids[j] - 1]
    {
      var position := IndexOf(filters, names[k]);
      if position.None? {
        return Err(UnknownFilter(names[k]));
      }
      ids := ids + [position.value + 1];
    }
    return Ok(ids);
  }

  // ---------------------------------------------------------------------
  // Real-valued cut lists

  /** `[float(i) for i in tokens]`, with `float` as the oracle `parse`;
      the first token `float` rejects raises ValueError. */
  function ParseReals(tokens: seq<string>, parse: string -> Option<real>): (r: Result<seq<real>, UntimedError>)
    ensures r.Ok? <==> forall k | 0 <= k < |tokens| :: parse(tokens[k]).Some?
    ensures r.Ok? ==> |r.value| == |tokens| && forall k | 0 <= k < |tokens| :: parse(tokens[k]) == Some(r.value[k])
    ensures r.Err? ==> exists k | 0 <= k < |tokens| ::
      && r.error == NotANumber(tokens[k]) && parse(tokens[k]).None?
      && forall j | 0 <= j < k :: parse(tokens[j]).Some?
  {
    if tokens == [] then Ok([])
    else match parse(tokens[0])
      case None => Err(NotANumber(tokens[0]))
      case Some(x) =>
        match ParseReals(tokens[1..], parse)
        case Err(e) =>
          assert forall j | 1 <= j < |tokens| :: tokens[j] == tokens[1..][j - 1];
          Err(e)
        case Ok(xs) =>
          assert forall j | 1 <= j < |tokens| :: tokens[j] == tokens[1..][j - 1];
          Ok([x] + xs)
  }

  // ---------------------------------------------------------------------
  // Field selection

  /** The value stored under the field-selection key. */
  datatype FieldCut =
    | FieldIds(ids: seq<int>)
    | RaDecRange(raRange: seq<real>, decRange: seq<real>)
    | GalacticRange(lRange: seq<real>, bRange: seq<real>)

  /** Where the field-selection branch leaves the request: `return 0`, a
      key and its value, or (no option matched) `field_selection` never
      bound. */
  datatype FieldSelection =
    | Skip
    | Chosen(key: string, cut: FieldCut)
    | Unbound

  /** The form fields the legacy request reads. `int(...)` and `float(...)`
      of the scalar fields are taken as already applied. */
  datatype UntimedData = UntimedData(
    priority: string,
    fieldSelection: string,
    ra: string,
    dec: string,
    raCut: string,
    decCut: string,
    filterChoice: string,
    filters: seq<string>,
    progName: string,
    name: string,
    internightGapDays: int,
    nVisitsPerNight: int,
    exp: real,
    intranightGapMin: Option<int>,
    intranightHalfWidthMin: Option<int>)

  /** Both cut lists of a range branch, parsed in source order: the RA (or
      l) list first, so its error is the one reported when both fail. */
  function CutLists(data: UntimedData, parse: string -> Option<real>): (r: Result<(seq<real>, seq<real>), UntimedError>)
    ensures r.Ok? <==> ParseReals(Tokens(data.raCut), parse).Ok? && ParseReals(Tokens(data.decCut), parse).Ok?
    ensures r.Ok? ==>
      && ParseReals(Tokens(data.raCut), parse) == Ok(r.value.0)
      && ParseReals(Tokens(data.decCut), parse) == Ok(r.value.1)
    ensures ParseReals(Tokens(data.raCut), parse).Err? ==> r == Err(ParseReals(Tokens(data.raCut), parse).error)
    ensures ParseReals(Tokens(data.raCut), parse).Ok? && ParseReals(Tokens(data.decCut), parse).Err? ==>
      r == Err(ParseReals(Tokens(data.decCut), parse).error)
  {
    match ParseReals(Tokens(data.raCut), parse)
    case Err(e) => Err(e)
    case Ok(raCut) =>
      match ParseReals(Tokens(data.decCut), parse)
      case Err(e) => Err(e)
      case Ok(decCut) => Ok((raCut, decCut))
  }

  /** A range branch (`ra_range`/`dec_range` when `equatorial`, else
      `l_range`/`b_range`): `return 0` on an empty cut string, otherwise both
      lists parsed. */
  function RangeBranch(data: UntimedData, parse: string -> Option<real>, equatorial: bool)
    : Result<FieldSelection, UntimedError>
  {
    if |data.raCut| == 0 || |data.decCut| == 0 then Ok(Skip)
    else match CutLists(data, parse)
      case Err(e) => Err(e)
      case Ok((raCut, decCut)) =>
        if equatorial then Ok(Chosen("field_selections", RaDecRange(raCut, decCut)))
        else Ok(Chosen("field_selections", GalacticRange(raCut, decCut)))
  }

  /** The `if`/`elif` chain on `field_opts`: the first option equal to the
      form's choice decides; reading `field_opts[k]` past the end of the
      list raises IndexError, which happens only when no earlier option
      matched. `fieldIdsOf` stands for `get_field_ids`, which is not part of
      this model. */
  function SelectField(data: UntimedData, fieldOpts: seq<string>,
                       fieldIdsOf: (seq<string>, seq<string>) -> seq<int>,
                       parse: string -> Option<real>): (r: Result<FieldSelection, UntimedError>)
  {
    if |fieldOpts| == 0 then Err(MissingFieldOption(0))
    else if data.fieldSelection == fieldOpts[0] then
      if |data.ra| == 0 || |data.dec| == 0 then Ok(Skip)
      else Ok(Chosen("field_ids", FieldIds(fieldIdsOf(Tokens(data.ra), Tokens(data.dec)))))
    else if |fieldOpts| == 1 then Err(MissingFieldOption(1))
    else if data.fieldSelection == fieldOpts[1] then RangeBranch(data, parse, true)
    else if |fieldOpts| == 2 then Err(MissingFieldOption(2))
    else if data.fieldSelection == fieldOpts[2] then RangeBranch(data, parse, false)
    else Ok(Unbound)
  }

  /** How many options the chain can compare: at most three. */
  function Reachable(fieldOpts: seq<string>): nat
  {
    if |fieldOpts| < 3 then |fieldOpts| else 3
  }

  /** What each branch of the field selection yields: IndexError exactly
      when the choice is none of the (fewer than three) options; `return 0`
      exactly when the strings its option needs are empty; the id branch
      hands the tokens of `ra` and `dec` to `get_field_ids`; the two range
      branches store the parsed cut lists under `ra_range`/`dec_range` or
      `l_range`/`b_range` (both lists always, the single-list branches
      being unreachable); no match among three options leaves the name
      unbound. */
  lemma SelectFieldBranches(data: UntimedData, fieldOpts: seq<string>,
                            fieldIdsOf: (seq<string>, seq<string>) -> seq<int>,
                            parse: string -> Option<real>)
    ensures var r := SelectField(data, fieldOpts, fieldIdsOf, parse);
      var sel := data.fieldSelection;
      && (r == Ok(Unbound) <==> |fieldOpts| >= 3 && sel !in fieldOpts[..3])
      && (r.Err? && r.error.MissingFieldOption? <==> |fieldOpts| < 3 && sel !in fieldOpts)
      && (r.Err? && r.error.MissingFieldOption? ==> r.error.index == |fieldOpts|)
      && (|fieldOpts| >= 1 && sel == fieldOpts[0] ==>
            r == if data.ra == [] || data.dec == [] then Ok(Skip)
                 else Ok(Chosen("field_ids", FieldIds(fieldIdsOf(Tokens(data.ra), Tokens(data.dec))))))
      && (|fieldOpts| >= 2 && sel in fieldOpts[1..Reachable(fieldOpts)] && sel != fieldOpts[0] ==>
            (r == Ok(Skip) <==> data.raCut == [] || data.decCut == []))
      && (r.Ok? && r.value.Chosen? && r.value.cut.RaDecRange? ==>
            && |fieldOpts| >= 2
            && sel == fieldOpts[1] != fieldOpts[0]
            && r.value.key == "field_selections"
            && ParseReals(Tokens(data.raCut), parse) == Ok(r.value.cut.raRange)
            && ParseReals(Tokens(data.decCut), parse) == Ok(r.value.cut.decRange))
      && (r.Ok? && r.value.Chosen? && r.value.cut.GalacticRange? ==>
            && |fieldOpts| >= 3
            && sel == fieldOpts[2]
            && sel !in fieldOpts[..2]
            && r.value.key == "field_selections"
            && ParseReals(Tokens(data.raCut), parse) == Ok(r.value.cut.lRange)
            && ParseReals(Tokens(data.decCut), parse) == Ok(r.value.cut.bRange))
      && (|fieldOpts| >= 2 && sel == fieldOpts[1] && sel != fieldOpts[0]
          && data.raCut != [] && data.decCut != [] ==>
            r == match CutLists(data, parse)
                 case Ok(cuts) => Ok(Chosen("field_selections", RaDecRange(cuts.0, cuts.1)))
                 case Err(e) => Err(e))
      && (|fieldOpts| >= 3 && sel == fieldOpts[2] && sel !in fieldOpts[..2]
          && data.raCut != [] && data.decCut != [] ==>
            r == match CutLists(data, parse)
                 case Ok(cuts) => Ok(Chosen("field_selections", GalacticRange(cuts.0, cuts.1)))
                 case Err(e) => Err(e))
      && (r.Err? && !r.error.MissingFieldOption? ==>
            && |fieldOpts| >= 2 && sel in fieldOpts[1..Reachable(fieldOpts)] && sel != fieldOpts[0]
            && data.raCut != [] && data.decCut != [])
      && (r.Ok? && r.value.Chosen? ==> r.value.key in ["field_ids", "field_selections"])
  {
    if |fieldOpts| >= 3 {
      assert fieldOpts[..3] == [fieldOpts[0], fieldOpts[1], fieldOpts[2]];
      assert fieldOpts[1..3] == [fieldOpts[1], fieldOpts[2]];
      assert fieldOpts[..2] == [fieldOpts[0], fieldOpts[1]];
    } else if |fieldOpts| == 2 {
      assert fieldOpts == [fieldOpts[0], fieldOpts[1]];
      assert fieldOpts[1..2] == [fieldOpts[1]];
    } else if |fieldOpts| == 1 {
      assert fieldOpts == [fieldOpts[0]];
    }
  }

  // ---------------------------------------------------------------------
  // The untimed program request

  /** `program_data`; the constant entries are fields so that the record
      holds every value the request writes. */
  datatype UntimedProgram = UntimedProgram(
    programName: string,
    subprogramName: string,
    programPi: string,
    programObservingFraction: real,
    subprogramFraction: real,
    selectionKey: string,
    cut: FieldCut,
    filterChoice: string,
    filterIds: seq<int>,
    internightGapDays: int,
    nVisitsPerNight: int,
    nightlyPriority: string,
    exposureTime: real,
    activeMonths: string,
    intranightGapMin: Option<int>,
    intranightHalfWidthMin: Option<int>)

  /** The keys of `program_data` in insertion order, the two optional ones
      present only when set. */
  function ProgramKeys(p: UntimedProgram): (keys: seq<string>)
    ensures |keys| == 13 + (if p.intranightGapMin.Some? then 1 else 0) + (if p.intranightHalfWidthMin.Some? then 1 else 0)
    ensures p.selectionKey in ["field_ids", "field_selections"] ==>
      && ("intranight_gap_min" in keys <==> p.intranightGapMin.Some?)
      && ("intranight_half_width_min" in keys <==> p.intranightHalfWidthMin.Some?)
  {
    ["program_name", "subprogram_name", "program_pi", "program_observing_fraction",
     "subprogram_fraction", p.selectionKey, "filter_choice", "filter_ids",
     "internight_gap_days", "n_visits_per_night", "nightly_priority",
     "exposure_time", "active_months"]
    + (if p.intranightGapMin.Some? then ["intranight_gap_min"] else [])
    + (if p.intranightHalfWidthMin.Some? then ["intranight_half_width_min"] else [])
  }

  /** `return 0` without writing, or `return 1` after writing `program`
      as JSON to `path`. */
  datatype UntimedOutcome =
    | Skipped
    | Written(path: string, program: UntimedProgram)

  function ReturnCode(o: UntimedOutcome): int
  {
    if o.Skipped? then 0 else 1
  }

  /** The file the request is written to; `date` stands for the clock. */
  function UntimedPath(writePath: string, camera: string, date: string): (path: string)
    ensures |path| == |writePath| + 22 + |date| + 5
    ensures path[..|writePath|] == writePath
    ensures path[|writePath|..|writePath| + 6] == (if camera == "WINTER" then "winter" else "summer")
    ensures path[|writePath| + 6..|path| - |date| - 5] == "_untimed_request"
    ensures path[|path| - |date| - 5..] == date + ".json"
  {
    writePath + (if camera == "WINTER" then "winter" else "summer") + "_untimed_request" + date + ".json"
  }

  /** The file name tells the two cameras apart, and only them: every
      camera other than "WINTER" writes to the summer file. */
  lemma UntimedPathNamesCamera(writePath: string, c1: string, c2: string, date: string)
    ensures UntimedPath(writePath, c1, date) == UntimedPath(writePath, c2, date)
        <==> (c1 == "WINTER" <==> c2 == "WINTER")
  {
    var p1, p2 := UntimedPath(writePath, c1, date), UntimedPath(writePath, c2, date);
    if (c1 == "WINTER") != (c2 == "WINTER") {
      assert p1[|writePath|] != p2[|writePath|];
    }
  }

  /** `make_untimed_request`, its checks in the order the source makes
      them: the priority colon, the field selection, the filter-choice
      colon, the filter positions, then the unbound `field_selection`
      when no option matched. */
  method MakeUntimedRequest(writePath: string, camera: string, data: UntimedData,
                            fieldOpts: seq<string>, filters: seq<string>, date: string,
                            fieldIdsOf: (seq<string>, seq<string>) -> seq<int>,
                            parse: string -> Option<real>)
    returns (r: Result<UntimedOutcome, UntimedError>)
    ensures ':' !in data.priority ==> r == Err(NoColon("priority"))
    ensures ':' in data.priority ==>
      match SelectField(data, fieldOpts, fieldIdsOf, parse)
      case Err(e) => r == Err(e)
      case Ok(Skip) => r == Ok(Skipped)
      case Ok(sel) =>
        if ':' !in data.filterChoice then r == Err(NoColon("filter_choice"))
        else if exists n | n in data.filters :: n !in filters then
          exists k | 0 <= k < |data.filters| ::
            && r == Err(UnknownFilter(data.filters[k])) && data.filters[k] !in filters
            && forall j | 0 <= j < k :: data.filters[j] in filters
        else if sel.Unbound? then r == Err(FieldSelectionUnbound)
        else r.Ok? && r != Ok(Skipped)
    ensures r.Ok? && r.value.Written? ==>
      var p := r.value.program;
      && r.value.path == UntimedPath(writePath, camera, date)
      && SelectField(data, fieldOpts, fieldIdsOf, parse) == Ok(Chosen(p.selectionKey, p.cut))
      && Some(p.nightlyPriority) == BeforeColon(data.priority)
      && Some(p.filterChoice) == BeforeColon(data.filterChoice)
      && |p.filterIds| == |data.filters|
      && (forall k | 0 <= k < |data.filters| ::
            && 1 <= p.filterIds[k] <= |filters|
            && filters[p.filterIds[k] - 1] == data.filters[k]
            && data.filters[k] !in filters[..p.filterIds[k] - 1])
      && p.programName == "collaboration" && p.activeMonths == "all"
      && p.programObservingFraction == 0.0 && p.subprogramFraction == 0.0
      && p.subprogramName == data.progName && p.programPi == data.name
      && p.internightGapDays == data.internightGapDays
      && p.nVisitsPerNight == data.nVisitsPerNight
      && p.exposureTime == data.exp
      && p.intranightGapMin == data.intranightGapMin
      && p.intranightHalfWidthMin == data.intranightHalfWidthMin
  {
    var path := UntimedPath(writePath, camera, date);
    var nightlyPriority := BeforeColon(data.priority);
    if nightlyPriority.None? {
      return Err(NoColon("priority"));
    }
    var selection := SelectField(data, fieldOpts, fieldIdsOf, parse);
    if selection.Err? {
      return Err(selection.error);
    }
    if selection.value.Skip? {
      return Ok(Skipped);
    }
    var filterChoice := BeforeColon(data.filterChoice);
    if filterChoice.None? {
      return Err(NoColon("filter_choice"));
    }
    var filterIds := FilterIds(data.filters, filters);
    if filterIds.Err? {
      return Err(filterIds.error);
    }
    if selection.value.Unbound? {
      return Err(FieldSelectionUnbound);
    }
    var program := UntimedProgram(
      "collaboration", data.progName, data.name, 0.0, 0.0,
      selection.value.key, selection.value.cut, filterChoice.value, filterIds.value,
      data.internightGapDays, data.nVisitsPerNight, nightlyPriority.value, data.exp,
      "all", None, None);
    if data.intranightGapMin.Some? {
      program := program.(intranightGapMin := data.intranightGapMin);
    }
    if data.intranightHalfWidthMin.Some? {
      program := program.(intranightHalfWidthMin := data.intranightHalfWidthMin);
    }
    return Ok(Written(path, program));
  }

  // ---------------------------------------------------------------------
  // Target-of-opportunity frames

  /** `np.linspace(start, stop, n)` with its default endpoint: `n` evenly
      spaced values, the last one exactly `stop`; a single value is `start`;
      a negative count raises ValueError. */
  function Linspace(start: real, stop: real, n: int): (r: Option<seq<real>>)
    ensures r.None? <==> n < 0
    ensures r.Some? ==> |r.value| == n
  {
    if n < 0 then None
    else Some(seq(n, k requires 0 <= k < n =>
      if n > 1 && k == n - 1 then stop
      else if n == 1 then start
      else start + (k as real) * (stop - start) / ((n - 1) as real)))
  }

  /** Away from the last value, element `k` is `start` plus `k` steps. */
  lemma LinspaceAt(start: real, stop: real, n: int, k: int)
    requires n > 1 && 0 <= k < n
    ensures Linspace(start, stop, n).value[k] == start + (k as real) * ((stop - start) / ((n - 1) as real))
  {
    var d := (n - 1) as real;
    if k == n - 1 {
      assert d * ((stop - start) / d) == stop - start;
    } else {
      assert Linspace(start, stop, n).value[k] == start + (k as real) * (stop - start) / d;
      ScaleThenDivide(k as real, stop - start, d);
    }
  }

  /** Scaling before or after the division gives the same quotient. */
  lemma ScaleThenDivide(a: real, b: real, d: real)
    requires d != 0.0
    ensures a * b / d == a * (b / d)
  {
    var q := b / d;
    assert b == q * d;
    assert a * b == (a * q) * d;
  }

  /** The end points and the even spacing of `Linspace`. */
  lemma LinspaceShape(start: real, stop: real, n: int)
    requires n >= 1
    ensures var xs := Linspace(start, stop, n).value;
      && xs[0] == start
      && xs[n - 1] == (if n == 1 then start else stop)
      && (forall k | 0 <= k < n - 1 :: xs[k + 1] - xs[k] == (stop - start) / ((n - 1) as real))
  {
    var xs := Linspace(start, stop, n).value;
    if n > 1 {
      var step := (stop - start) / ((n - 1) as real);
      forall k | 0 <= k < n - 1
        ensures xs[k + 1] - xs[k] == step
      {
        LinspaceAt(start, stop, n, k);
        LinspaceAt(start, stop, n, k + 1);
        assert ((k + 1) as real) * step == (k as real) * step + step;
      }
    }
  }

  /** With `start <= stop` no value is below an earlier one. */
  lemma {:induction false} LinspaceMonotone(start: real, stop: real, n: int, j: int, k: int)
    requires 0 <= j <= k < n && start <= stop
    ensures Linspace(start, stop, n).value[j] <= Linspace(start, stop, n).value[k]
    decreases k - j
  {
    if j < k {
      LinspaceMonotone(start, stop, n, j, k - 1);
      LinspaceShape(start, stop, n);
      assert (stop - start) / ((n - 1) as real) >= 0.0;
    }
  }

  /** With `start <= stop` the values climb from `start` to `stop`. */
  lemma LinspaceOrdered(start: real, stop: real, n: int, j: int, k: int)
    requires 0 <= j <= k < n && start <= stop
    ensures var xs := Linspace(start, stop, n).value;
      start <= xs[j] <= xs[k] <= stop
  {
    LinspaceShape(start, stop, n);
    LinspaceMonotone(start, stop, n, 0, j);
    LinspaceMonotone(start, stop, n, j, k);
    LinspaceMonotone(start, stop, n, k, n - 1);
  }

  /** One row of a request's frame as `make_too_request_from_df` fills it
      (`altitude` and `azimuth` are not modelled). */
  datatype TooRow = TooRow(
    obsHistID: int,
    requestID: int,
    propID: int,
    fieldRA: real,
    fieldDec: real,
    visitTime: real,
    visitExpTime: real,
    expDate: int,
    validStart: real,
    validStop: real,
    expMJD: real,
    filter: string,
    dither: string,
    priority: int,
    fieldID: int,
    metricValue: int,
    observed: int)

  /** One row of the request table, after the column renaming of
      `make_too_request_from_df`; times are MJD. */
  datatype TooRequest = TooRequest(
    ra: real,
    dec: real,
    filt: string,
    nExps: int,
    dither: string,
    startTime: real,
    stopTime: real,
    programName: string,
    exptime: real,
    piName: string,
    targetPriority: int)

  /** What the visibility and program checks of `make_too_dataframe`
      decide, with the status each rejection returns. */
  datatype TooOutcome =
    | NotUpTonight
    | NoSuchProgram
    | WrongPi
    | OutsideProgramDates
    | Accepted(programDbId: int, programBasePriority: int)

  function Status(o: TooOutcome): int
  {
    match o
    case NotUpTonight => -99
    case NoSuchProgram => -10
    case WrongPi => -15
    case OutsideProgramDates => -20
    case Accepted(_, _) => 0
  }

  const GUEST_FIELD_ID: int := 999999999

  datatype TooError = NegativeExposureCount(nExps: int)

  /** The rows of an accepted request, numbered from `base`. */
  function TooFrame(req: TooRequest, base: int, programDbId: int, basePriority: int,
                    radPerDeg: real, times: seq<real>): (rows: seq<TooRow>)
    ensures |rows| == |times|
  {
    var priority := basePriority + req.targetPriority;
    seq(|times|, k requires 0 <= k < |times| =>
      TooRow(base + k, base + k, programDbId, req.ra * radPerDeg, req.dec * radPerDeg,
             req.exptime, req.exptime, req.startTime.Floor, req.startTime, req.stopTime,
             times[k], req.filt, req.dither, priority, GUEST_FIELD_ID, priority, 0))
  }

  /** `make_too_dataframe(data, base_index)`: a negative exposure count
      raises in `np.linspace` before any check; a rejected request gives
      its status and no rows; an accepted one gives status 0 and `nExps`
      rows numbered from `base`. */
  function MakeTooDataframe(req: TooRequest, base: int, outcome: TooOutcome, radPerDeg: real): (r: Result<(int, seq<TooRow>), TooError>)
    ensures r.Err? <==> req.nExps < 0
    ensures r.Ok? ==> r.value.0 == Status(outcome)
    ensures r.Ok? ==> (r.value.1 == [] <==> !outcome.Accepted? || req.nExps == 0)
    ensures r.Ok? && outcome.Accepted? ==> |r.value.1| == req.nExps
  {
    match Linspace(req.startTime, req.stopTime, req.nExps)
    case None => Err(NegativeExposureCount(req.nExps))
    case Some(times) =>
      match outcome
      case Accepted(dbId, basePriority) => Ok((0, TooFrame(req, base, dbId, basePriority, radPerDeg, times)))
      case _ => Ok((Status(outcome), []))
  }

  /** Every row of an accepted request: ids `base + k`, the program's id,
      the coordinates in radians, the exposure times spread by `Linspace`,
      the priority the program's base plus the target's, the guest field
      id and not yet observed. */
  lemma TooFrameRows(req: TooRequest, base: int, outcome: TooOutcome, radPerDeg: real)
    requires outcome.Accepted? && req.nExps >= 0
    ensures var rows := MakeTooDataframe(req, base, outcome, radPerDeg).value.1;
      var times := Linspace(req.startTime, req.stopTime, req.nExps).value;
      forall k | 0 <= k < |rows| ::
        && rows[k].obsHistID == base + k && rows[k].requestID == base + k
        && rows[k].propID == outcome.programDbId
        && rows[k].fieldRA == req.ra * radPerDeg && rows[k].fieldDec == req.dec * radPerDeg
        && rows[k].visitTime == req.exptime && rows[k].visitExpTime == req.exptime
        && rows[k].expDate as real <= req.startTime < rows[k].expDate as real + 1.0
        && rows[k].validStart == req.startTime && rows[k].validStop == req.stopTime
        && rows[k].expMJD == times[k]
        && rows[k].filter == req.filt && rows[k].dither == req.dither
        && rows[k].priority == rows[k].metricValue == outcome.programBasePriority + req.targetPriority
        && rows[k].fieldID == GUEST_FIELD_ID && rows[k].observed == 0
  {
  }

  /** The loop of `make_too_request_from_df`: each request, its target
      priority reset to 0, is turned into a frame numbered from the rows
      gathered so far; the frames are concatenated and the statuses
      collected. A request that raises aborts the whole call. `outcomeOf`
      stands for the database and visibility checks. */
  function FromDfSpec(reqs: seq<TooRequest>, outcomeOf: TooRequest -> TooOutcome, radPerDeg: real): (r: Result<(seq<int>, seq<TooRow>), TooError>)
  {
    if reqs == [] then Ok(([], []))
    else
      match FromDfSpec(reqs[..|reqs| - 1], outcomeOf, radPerDeg)
      case Err(e) => Err(e)
      case Ok((status, schedule)) =>
        var req := reqs[|reqs| - 1].(targetPriority := 0);
        match MakeTooDataframe(req, |schedule|, outcomeOf(req), radPerDeg)
        case Err(e) => Err(e)
        case Ok((ret, frame)) => Ok((status + [ret], schedule + frame))
  }

  /** The whole table fails exactly when some request has a negative
      exposure count; otherwise there is one status per request, and the
      schedule's ids run 0, 1, 2, ... without gap or repetition. */
  lemma {:induction false} FromDfContiguous(reqs: seq<TooRequest>, outcomeOf: TooRequest -> TooOutcome, radPerDeg: real)
    ensures var r := FromDfSpec(reqs, outcomeOf, radPerDeg);
      && (r.Err? <==> exists k | 0 <= k < |reqs| :: reqs[k].nExps < 0)
      && (r.Ok? ==>
            && |r.value.0| == |reqs|
            && (forall k | 0 <= k < |reqs| :: r.value.0[k] == Status(outcomeOf(reqs[k].(targetPriority := 0))))
            && (forall j | 0 <= j < |r.value.1| :: r.value.1[j].obsHistID == j && r.value.1[j].requestID == j))
  {
    if reqs != [] {
      var init := reqs[..|reqs| - 1];
      FromDfContiguous(init, outcomeOf, radPerDeg);
      assert forall k | 0 <= k < |init| :: init[k] == reqs[k];
      var last := reqs[|reqs| - 1];
      var req := last.(targetPriority := 0);
      match FromDfSpec(init, outcomeOf, radPerDeg)
      case Err(e) =>
      case Ok((status, schedule)) =>
        if req.nExps >= 0 && outcomeOf(req).Accepted? {
          TooFrameRows(req, |schedule|, outcomeOf(req), radPerDeg);
        }
    }
  }

  /** A request that raises aborts every longer table as well. */
  lemma {:induction false} FromDfErrorSticks(reqs: seq<TooRequest>, i: nat, outcomeOf: TooRequest -> TooOutcome, radPerDeg: real)
    requires i <= |reqs| && FromDfSpec(reqs[..i], outcomeOf, radPerDeg).Err?
    ensures FromDfSpec(reqs, outcomeOf, radPerDeg) == FromDfSpec(reqs[..i], outcomeOf, radPerDeg)
  {
    if i < |reqs| {
      assert reqs[..|reqs| - 1][..i] == reqs[..i];
      FromDfErrorSticks(reqs[..|reqs| - 1], i, outcomeOf, radPerDeg);
    } else {
      assert reqs[..i] == reqs;
    }
  }

  /** `make_too_request_from_df` up to the export: the loop threads
      `base_index`, the running row count, into each request's frame. */
  method MakeTooRequestFromDf(reqs: seq<TooRequest>, outcomeOf: TooRequest -> TooOutcome, radPerDeg: real)
    returns (r: Result<(seq<int>, seq<TooRow>), TooError>)
    ensures r == FromDfSpec(reqs, outcomeOf, radPerDeg)
  {
    var status: seq<int> := [];
    var schedule: seq<TooRow> := [];
    var baseIndex := 0;
    for i := 0 to |reqs|
      invariant FromDfSpec(reqs[..i], outcomeOf, radPerDeg) == Ok((status, schedule))
      invariant baseIndex == |schedule|
    {
      assert reqs[..i + 1][..i] == reqs[..i];
      var req := reqs[i].(targetPriority := 0);
      var ret := MakeTooDataframe(req, baseIndex, outcomeOf(req), radPerDeg);
      if ret.Err? {
        FromDfErrorSticks(reqs, i + 1, outcomeOf, radPerDeg);
        return Err(ret.error);
      }
      schedule := schedule + ret.value.1;
      status := status + [ret.value.0];
      baseIndex := |schedule|;
    }
    assert reqs[..|reqs|] == reqs;
    return Ok((status, schedule));
  }
}
