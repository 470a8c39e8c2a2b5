# wintertoo in Dafny

A model of the request-building and request-checking core of wintertoo, the
target-of-opportunity (ToO) toolkit of the WINTER and SUMMER cameras at
Palomar. It covers the following parts:

- **Constants and catalogs** (`Data`). The filter sets and tile widths, the
  split of the winter field catalog at ID 41170, the schema-default lookup,
  and the shape of a schedule row.
- **Field-grid queries** (`Fields`). The per-camera catalog, lookup by field
  ID, the box query, the overlap query and the choice of the best
  (closest) field.
- **Request models** (`TooModels`, `ProgramModels`, `ImageModels`). The
  pydantic models for ToO requests, program records and image queries:
  their defaults, field bounds and model validators.
- **Validation** (`Validate`). The row-by-row validation gates (schema,
  visibility, priority, PI, dates), the filter-name check, and the
  request-level check that groups rows by program.
- **Schedule building** (`Schedule`). `make_schedule` expands per-target lists
  into one row per target, filter and repetition, and numbers the rows.
  `schedule_ra_dec` builds one-target schedules.
- **Program lookup** (`Database`). The credential matching of
  `get_program_details`: name and key flags, the mask, the no-match and
  multiple-match failures, and the date-to-text conversion.
- **Legacy requests** (`MakeRequest`). The form parsing of
  `make_untimed_request`, and the row numbering of `make_too_dataframe` /
  `make_too_request_from_df`.

Each pure Python function is a Dafny function with lemmas; a loop or
comprehension inside such a function (the two bound pairs of the rectangle
query, the separations of the best-field choice) is written as an expression.
The loops of the step-by-step code (the gates of wintertoo/validate.py,
`make_schedule`, the name and key columns of `get_program_details`, and the
filter-id and row-numbering loops of wintertoo/make_request.py) are methods
with loop invariants, each proved against a reference function.
Where the source calls a database, the clock, astropy or a regular
expression it does not define, the model takes that call as a parameter:

- the schema check is a row predicate;
- the visibility test is `isUp(mjd, ra, dec)`;
- the sky separation and `cos(dec)` are inputs;
- the program lookup, `secrets.compare_digest` and `bcrypt.checkpw` are
  functions;
- `float()` is a parse function;
- `get_field_ids` is a function;
- `Time.now()` is a number.

Floats are reals, and times are MJD reals.

## Model

| member | source | states |
|---|---|---|
| Data.WinterSplitIsPartition | wintertoo/data/__init__.py:19-22 | The primary (ID < 41170) and secondary (ID >= 41170) winter grids partition the winter catalog. Every row lands in exactly one grid, the multisets add up, and both grids keep file order. |
| Data.WinterScienceFiltersAreWinterFilters | wintertoo/data/__init__.py:26-30 | The winter science filters are a proper subset of the winter filters. |
| Data.GetDefaultValue | wintertoo/data/__init__.py:48-55 | The lookup succeeds exactly when the key and its default exist, and then returns that default. A missing key and a missing default are distinct errors. |
| Fields.GetFields | wintertoo/fields.py:22-32 | Summer gives the summer catalog. Winter gives exactly the primary winter grid: every row of the winter file with ID below 41170, and no other row. |
| Fields.GetBaseWidth | wintertoo/fields.py:35-41 | The tile width is positive: 0.26112 deg for summer and 1.0 deg for winter. |
| Fields.GetFieldInfo | wintertoo/fields.py:44-62 | The call fails with not-found exactly when no row has the ID, and with a duplicate error exactly when several rows do. Otherwise it returns the one row with that ID, which is the only such row. |
| Fields.GetFieldsInBox | wintertoo/fields.py:65-83 | The result is exactly the catalog tiles whose centre lies strictly inside the box widened by half a tile width. |
| Fields.BoxQueryKeepsCatalogOrder | wintertoo/fields.py:79-82 | The box query over two concatenated catalog pieces is the concatenation of the two queries, so catalog order is kept. |
| Fields.GetOverlappingFields | wintertoo/fields.py:86-110 | The result is exactly the tiles whose centre lies strictly within half a footprint (base width / cos dec) of the point. |
| Fields.FirstMinIndex | wintertoo/fields.py:189-198 | The index is in range, its value is a minimum, and every earlier value is strictly larger. This is `closest.iloc[0]`. |
| Fields.GetBestField | wintertoo/fields.py:166-198 | The call fails exactly when no tile overlaps. Otherwise the result is an overlapping tile, no overlapping tile is closer, and no earlier overlapping tile is as close. |
| Fields.SnapToTileCentreIsFixedPoint | wintertoo/fields.py:166-198 | Asked for the centre of a catalog tile, the best field is a tile at that same centre. |
| TooModels.AllowedFilters | wintertoo/models/too.py:192-201 | Summer requests admit the summer filters, and winter requests the winter filters. |
| TooModels.DefaultFilters | wintertoo/models/too.py:192-201 | The default filter list of each season is non-empty and uses only that season's filters. |
| TooModels.EmptyFilterListPassesAsWritten | wintertoo/models/too.py:192-201 | The declared filter check of the concrete classes accepts an empty list, and the intended check rejects it (see Findings). |
| TooModels.Resolve | wintertoo/models/too.py:36-83 | Every omitted field takes its declared default: the season's filters, priority 50, one repetition, start now + 0.01, end now + 1, no field grid, and the schema's target name, exposure time, dither count, dither distance, airmass and best-detector flag. Supplied values, the coordinates and the field ID are kept. |
| TooModels.SingleExposureTime | wintertoo/models/too.py:85-94 | The per-dither time times the dither count is the total exposure time. |
| TooModels.MakeRequest | wintertoo/models/too.py:96-169 | A request is built exactly when no supplied field breaks its bound and the validators hold: not both best-detector and field-grid, end after start, and per-dither time within [0.28, 300] s. Bound failures are all reported together, in pydantic's field order. The validators run in pydantic's order, so the detector/grid error comes first. Each error names its cause, and an accepted request is the resolved input with a non-empty filter list of allowed names. |
| TooModels.LocatorFieldsReportedFirst | wintertoo/models/too.py:180-216 | Each concrete class lists the coordinate or field mixin after `ToORequest` among its bases, so a bad `ra_deg`, `dec_deg` or `field_id` heads the error list and undeclared keywords close it. |
| TooModels.RaBeforePriority | wintertoo/models/too.py:208-209 | `SummerRaDecToO(ra_deg=400.0, dec_deg=0.0, target_priority=-1.0)` reports exactly `ra_deg`, then `target_priority`. |
| TooModels.ExposureAndWindowDecideAcceptance | wintertoo/models/too.py:112-137 | With valid fields, acceptance of a field-ID request reduces to end > start and 0.28·n <= t_exp <= 300·n. |
| TooModels.PerDitherBounds | wintertoo/models/too.py:119-135 | For n > 0, the per-dither bounds on t/n are the bounds on t scaled by n. |
| ProgramModels.Resolve | wintertoo/models/program.py:28-37 | Defaults are progid 1 and 0.0 hours allocated and used. Supplied fields are kept. |
| ProgramModels.MakeProgram | wintertoo/models/program.py:14-64 | A program is built exactly when its fields are valid, the end date is after the start date, and 0 <= hours used <= hours allocated. Each failure is reported in that order. |
| ImageModels.ParseKind | wintertoo/models/image.py:34-36 | Only "raw", "science" and "diff" are image kinds. |
| ImageModels.ResolveBase | wintertoo/models/image.py:16-36 | The base query keeps the program list, takes each date as given or at its default, and takes the named kind, or science when none is named. |
| ImageModels.MakeRectangleQuery | wintertoo/models/image.py:16-72 | The query is built exactly when the bounds are valid and max > min for RA and then for Dec. The RA error is reported before the Dec error. An accepted query is the input with its defaults filled in (the whole sky, the last 30 days, science images) and lies in [0,360] x [-90,90]. |
| ImageModels.DefaultRectanglePassesPairCheck | wintertoo/models/image.py:44-72 | Leaving out all four bounds gives the whole-sky query, which passes the pair check. |
| ImageModels.MakeConeQuery | wintertoo/models/image.py:75-84 | The query is built exactly when the centre and radius are within bounds, and otherwise lists the failing fields. An accepted query is the input with defaults filled in: centre (0, -90), radius 1 degree, and the base defaults. |
| Validate.ValidateScheduleDf | wintertoo/validate.py:47-56 | The check passes exactly when every row passes the schema. Otherwise it reports the first failing row. |
| Validate.ValidateTargetVisibility | wintertoo/validate.py:59-82 | The check passes exactly when every target is up at both ends of its window. Otherwise it reports the first such row, at the first time the target is down. |
| Validate.ValidateTargetPriority | wintertoo/validate.py:98-122 | The check passes exactly when no row's priority exceeds base + maximum. Otherwise it reports the first such row. |
| Validate.LowerIsOneLetter | wintertoo/validate.py:132 | A string lower-cases to one letter exactly when it is that letter or its upper-case form. |
| Validate.ValidateFilterAcceptsExactly | wintertoo/validate.py:125-132 | The filter check accepts exactly u, g, r, i in either case. |
| Validate.ValidateTargetPi | wintertoo/validate.py:135-149 | The check passes exactly when every row's PI equals the program PI. Otherwise it reports the first mismatch. |
| Validate.ValidateTargetDates | wintertoo/validate.py:152-187 | The check passes exactly when every window is ordered and inside the program dates. Otherwise it reports the first bad row, checking an inverted window before an early start and an early start before a late stop. |
| Validate.StripLeft | wintertoo/validate.py:234 | The result is a suffix of the input. Only whitespace was removed, and the result starts with non-whitespace. |
| Validate.StripRight | wintertoo/validate.py:234 | The result is a prefix of the input. Only whitespace was removed, and the result ends with non-whitespace. |
| Validate.Strip | wintertoo/validate.py:234 | The result is a slice of the input with whitespace removed on both ends, and it neither begins nor ends with whitespace. |
| Validate.StripIdempotent | wintertoo/validate.py:234 | Stripping twice is stripping once. |
| Validate.ValidateProgramRows | wintertoo/validate.py:212-252 | On the rows of one program, the check passes exactly when each row matches the stripped PI, the priority bound and the date bounds of the single record. |
| Validate.ValidatePrograms | wintertoo/validate.py:211-252 | The loop over program names passes exactly when every row of a listed program is accepted against its records. A no-match or multiple-match error names a listed program with 0 or more than 1 records. |
| Validate.ValidateScheduleRequest | wintertoo/validate.py:190-252 | The whole request passes exactly when every row passes the schema and visibility checks and its program has exactly one record whose PI, priority and dates it respects. |
| Schedule.Number | wintertoo/schedule.py:103 | Row j has obsHistID j and carries entry j. |
| Schedule.ExpectedLength | wintertoo/schedule.py:65-100 | The table has targets × filters × repetitions rows. |
| Schedule.ExpectedOrder | wintertoo/schedule.py:65-103 | Row (i·\|filters\| + f)·reps + k is target i in filter f, numbered by its position. |
| Schedule.ExpectedRows | wintertoo/schedule.py:65-103 | Every row is numbered by position and not observed. It carries the shared program columns, one of the filters, and the coordinates, field, window and overall priority of one target. |
| Schedule.ExpectedPassesPriorityCheck | wintertoo/schedule.py:71-73 | A built table passes the priority check against its own base exactly when no target priority exceeds the maximum, given at least one filter and one repetition. |
| Schedule.MissingColumn | wintertoo/schedule.py:65-73 | This is the first list the loop body cannot index at target i, in reading order: dec_degs, field_ids, start_times, end_times, then target_priorities. A list left at None is reported as missing, never as too short. |
| Schedule.AppendTarget | wintertoo/schedule.py:75-98 | The two inner loops append, for each filter in turn, `reps` copies of the target's row. |
| Schedule.CollectEntries | wintertoo/schedule.py:65-98 | The loop fails exactly when some list is too short, naming the first unreadable target. Otherwise it yields the full expansion. |
| Schedule.MakeSchedule | wintertoo/schedule.py:19-110 | Errors are reported in source order: an unreadable list, no rows to concatenate, then the first row that fails the schema. No other error kind occurs. Otherwise the result is the expected table: ordered, numbered, and every row passing the schema. |
| Schedule.FilterNames | wintertoo/schedule.py:168-172 | No filters means all summer filters, a single name becomes a one-element list, and a list is kept. |
| Schedule.SnapTarget | wintertoo/schedule.py:176-182 | With `use_field`, the snap fails exactly when no summer tile overlaps, and otherwise picks a closest overlapping tile. Without it, the position is kept with the schema's default field ID. |
| Schedule.ReplicatedTargets | wintertoo/schedule.py:184-191 | There is one copy of the target per filter: every list entry is the snapped position, field, window or target priority, and every list is long enough. |
| Schedule.ReplicatedRows | wintertoo/schedule.py:184-201 | The one-target schedule has \|filters\|² × reps rows. Each row carries the snapped position and field, the window, target + program priority, and one of the filters. |
| Schedule.RaDecRowsEmpty | wintertoo/schedule.py:184-201 | The replicated schedule is empty exactly when there are no filters or no repetitions. |
| Schedule.RaDecRowsCarry | wintertoo/schedule.py:184-201 | The replicated schedule has \|filters\|² × reps rows, each with the snapped position and field, the window, target + program priority, one of the filters, and the program's name, id, PI and airmass. |
| Schedule.ScheduleRaDec | wintertoo/schedule.py:113-203 | Winter is not implemented, and no overlapping field is an error. A schedule is returned exactly when the snap succeeds, there is a filter and a repetition, and every replicated row passes the schema. It is then the replicated schedule with the default window [now, now + 1], the program columns and the schema's airmass. No filter or no repetition leaves nothing to concatenate, and any other failure after a successful snap is a schema failure. |
| Database.NameMatchColumn | wintertoo/database.py:75-78 | There is one flag per row: 1 exactly when the name matches. |
| Database.KeyMatchColumn | wintertoo/database.py:80-92 | There is one flag per row: 1 exactly when the key matches. A malformed hash gives 0. |
| Database.AndMask | wintertoo/database.py:94 | The mask is 1 exactly where both flags are 1. |
| Database.SelectByMask | wintertoo/database.py:94-99 | The rows picked by the mask are the matching rows in table order, and the mask's sum is their number. |
| Database.MatchingRowsMembers | wintertoo/database.py:94-101 | The matching rows are exactly the rows of the table that match. |
| Database.IsoDateRoundTrip | wintertoo/database.py:103-104 | For years 1-9999, the text of a date is ten characters long and reads back as the same date. |
| Database.WithTextDates | wintertoo/database.py:103-104 | The row is kept, and both dates become their ISO text. |
| Database.GetProgramDetails | wintertoo/database.py:75-106 | An empty table raises at the mask. Otherwise the call reports not-found exactly when no row matches, and multiple matches exactly when more than one does. Otherwise it returns the single matching row with text dates. |
| MakeRequest.Split | wintertoo/make_request.py:266-269 | There is at least one piece, and no piece contains a separator. |
| MakeRequest.SplitJoin | wintertoo/make_request.py:266-269 | The pieces, joined, are the text with its separators removed. |
| MakeRequest.SplitCount | wintertoo/make_request.py:266-269 | There is one piece more than there are separators. |
| MakeRequest.SplitRoundTrip | wintertoo/make_request.py:266-269 | The pieces interleaved with the separators, in order, give back the text, so the split drops nothing and keeps piece boundaries. |
| MakeRequest.Tokens | wintertoo/make_request.py:266-269 | Every token is non-empty and free of `,`, `[` and `]`. |
| MakeRequest.TokensJoin | wintertoo/make_request.py:280-283 | The tokens, joined, are the text without its separators: only separators and empty pieces are dropped. |
| MakeRequest.BeforeColon | wintertoo/make_request.py:254 | The result is missing exactly when there is no colon. Otherwise it is the prefix before the first colon. |
| MakeRequest.FilterIds | wintertoo/make_request.py:321-323 | The call succeeds exactly when every name is known. Each id is the 1-based position of the name's first occurrence. Otherwise it reports the first unknown name. |
| MakeRequest.ParseReals | wintertoo/make_request.py:280-283 | The call succeeds exactly when every token parses, and the values are the parses in order. Otherwise it reports the first token that fails. |
| MakeRequest.CutLists | wintertoo/make_request.py:280-283 | The call succeeds exactly when both lists parse, and returns their parses. The RA list is parsed first, so its error is reported when both fail, and the Dec error only when the RA list parses. |
| MakeRequest.SelectFieldBranches | wintertoo/make_request.py:258-315 | With three or more options, the chain ends unbound exactly when none of the first three matches. With fewer, an IndexError names the first missing option exactly when no option matches. Each branch returns 0 exactly when its strings are empty. The ids go to `get_field_ids`. A range branch with both cut strings non-empty stores both parsed lists under "field_selections", as ra/dec for the second option and l/b for the third, or else reports the cut lists' parse error. The single-list branches are unreachable, and the key is "field_ids" or "field_selections". |
| MakeRequest.ProgramKeys | wintertoo/make_request.py:325-345 | There are thirteen keys, plus one for each optional key that is set. Each optional key is present exactly when set. |
| MakeRequest.UntimedPath | wintertoo/make_request.py:247-251 | The path is the write path, then "winter" for the WINTER camera and "summer" for any other, then "_untimed_request", the date and ".json". |
| MakeRequest.UntimedPathNamesCamera | wintertoo/make_request.py:247-251 | Two cameras get the same file exactly when both or neither are "WINTER": apart from the camera, nothing else in the name changes. |
| MakeRequest.MakeUntimedRequest | wintertoo/make_request.py:245-353 | Errors come in source order: the priority colon, the field branch (including an option list too short for the chain), the filter-choice colon, the first unknown filter, then the unbound selection. A skip returns 0. A written program carries the colon prefixes, the filter ids, the constants, the copied fields and the optional keys exactly when set. |
| MakeRequest.Linspace | wintertoo/make_request.py:117 | The result is missing exactly when the count is negative. Otherwise it has `n` values. |
| MakeRequest.LinspaceAt | wintertoo/make_request.py:117 | Value k is start + k·step. |
| MakeRequest.LinspaceShape | wintertoo/make_request.py:117 | The first value is start and the last is stop (start when there is one value). The spacing is even. |
| MakeRequest.LinspaceMonotone | wintertoo/make_request.py:117 | With start <= stop, the values never decrease. |
| MakeRequest.LinspaceOrdered | wintertoo/make_request.py:117 | With start <= stop, every value lies in [start, stop]. |
| MakeRequest.MakeTooDataframe | wintertoo/make_request.py:105-186 | A negative count raises. A rejection gives its status (-99, -10, -15, -20) and no rows. Acceptance gives status 0 and `n_exp` rows. |
| MakeRequest.TooFrameRows | wintertoo/make_request.py:160-184 | Row k has ids base + k, the program id, the coordinates in radians, the times, floor(start) as the date, the linspace time, base + target priority, field 999999999, and is not observed. |
| MakeRequest.FromDfContiguous | wintertoo/make_request.py:71-96 | The table fails exactly when some count is negative. Otherwise there is one status per request, and obsHistID = requestID = position across the whole schedule: contiguous, with no gaps or repeats. |
| MakeRequest.FromDfErrorSticks | wintertoo/make_request.py:88-96 | A request that raises aborts every longer table. |
| MakeRequest.MakeTooRequestFromDf | wintertoo/make_request.py:71-96 | The loop, threading `base_index` as the running row count, computes the reference table. |

## Left out

- Reading and writing files are not modelled: CSV, JSON, sqlite (`export_schedule_to_sqlitedb`, `convert_to_sqlitedb`, `make_timed_request`, `make_too_request_from_file`) and the csv export of `make_schedule`. Logging, plotting (`plot_*` in wintertoo/fields.py) and interactive prompts are left out too.
- The database connection and SQL fetch of `get_program_details` are not modelled; the fetched table is an input. `compare_digest` and `bcrypt.checkpw` are functions (the latter with a third outcome for the ValueError of a malformed hash).
- astropy is not modelled. Time conversions, `SkyCoord.separation`, `np.cos(np.radians(dec))`, altitude/azimuth and the visibility test are parameters or inputs. The degree-to-radian factor is an input.
- The JSON schema of a schedule row is a row predicate; the schema file and the catalog files are inputs.
- wintertoo/validate.py imports `MAX_TARGET_PRIORITY` from wintertoo/data/__init__.py, which does not define it; the maximum target priority is a parameter.
- wintertoo/schedule.py imports `get_best_summer_field` from wintertoo/fields.py, which defines only `get_best_field`; the model snaps with `get_best_field(summer=True)`.
- Schedule.SnapTarget: the field ID is read as `best_field["#ID"]` while wintertoo/fields.py and wintertoo/data/__init__.py read the same column as `ID`; the model takes the catalog row's ID.
- Schedule.ScheduleRaDec: numeric keyword defaults (`t_exp`, `n_dither`, `dither_distance`) are caller-supplied values. Python's `Time.now()` is the number `now`.
- MakeRequest.MakeUntimedRequest: `int(...)`/`float(...)` of the scalar form fields are taken as already applied. `get_field_ids` is a function parameter, since utils.py does not define it.
- MakeRequest.MakeTooDataframe: the visibility, program-database and priority calls (lines 119-146) are replaced by an outcome input. As written they call helpers with signatures utils.py and validate.py do not have. Line 127 also reads `program_details` before it is assigned, which raises for every target that is up. Only the row arithmetic is modelled.
- The column list of `make_too_dataframe` (the loop at wintertoo/make_request.py:149-151 that copies the schema's keys into `key_array`) and the NaN fill of the frame are not modelled. A row of the model holds the columns the function assigns at lines 164-184, not the schema columns it leaves at NaN.
- MakeRequest.MakeTooRequestFromDf: the column renaming and date parsing are not modelled; requests come in already renamed with MJD times. The final `export_schedule_to_sqlitedb` (validation and write) is not modelled either.
- wintertoo/make_request.py imports `get_field_ids`, `get_start_stop_times` and `get_tonight` from wintertoo/utils.py, which does not define them. The model describes the function bodies as written.
- Validate.ValidateScheduleRequest: program names are visited in order of first occurrence, where the source iterates a Python set. The pass/fail verdict does not depend on the order; which error is reported may.
- Validate.Lower: ASCII lower-casing only; Unicode case mapping is not modelled.
- Fields.GetBestField: requires `cos(dec) != 0`. `np.cos(np.radians(dec))` in floating point is never exactly 0 (at ±90 degrees it is about 6e-17), so the requires excludes no value the source computes; the huge footprint near the poles is modelled like any other.
- The catalog-data examples of tests/test_fields.py need the real catalog files and are not modelled.
- TooModels.Resolve: an explicit `None` is treated as an omitted field. In the source, `start_time_mjd=None` or `end_time_mjd=None` makes the end-after-start validator raise TypeError, and `target_name=None` or `max_airmass=None` is stored as given.
- wintertoo/models/image.py imports `get_date` from wintertoo/utils.py, and wintertoo/models/__init__.py imports `ImagePath`, `ProgramImageQuery` and `TargetImageQuery` from wintertoo/models/image.py; neither file defines these names. The import-time dates `get_date(Time.now())` are the `Clock` input of the image queries.
- pydantic's alias choices (`t_exp`, `n_exp`) and class-definition-time defaults (`Time.now()` at import) are taken as the resolved values.

## Findings

| source | as written | input that shows it | evidently intended | confidence | as-written member | corrected member |
|---|---|---|---|---|---|---|
| wintertoo/models/too.py:192-201 | `Summer` and `Winter` re-declare `filters` without `min_length=1`, which replaces the base declaration, so an empty list is accepted | `SummerFieldToO(field_id=1, filters=[])` | every request names at least one filter, as the base class `ToORequest` declares at line 36 | high, not executed | TooModels.EmptyFilterListPassesAsWritten | TooModels.MakeRequest |
