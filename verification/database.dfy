/** The credential lookup of `get_program_details` in wintertoo/database.py:
    the program table is an input (the SQL fetch and the password prompts are
    not modelled), `secrets.compare_digest` on the program name and
    `bcrypt.checkpw` on the API key are oracles, and the rest is the
    match-mask selection: one name flag and one key flag per table row, their
    AND, the count of matches, the selection and the date-to-text
    conversion. */
module Database {
  import opened Wrappers

  /** A calendar date as the driver returns it for a DATE column. */
  datatype Date = Date(year: nat, month: nat, day: nat)

  /** One row of the `programs` table (the columns the model reads). */
  datatype ProgramRow = ProgramRow(
    progname: string,
    progKey: string,
    piname: string,
    basepriority: real,
    startdate: Date,
    enddate: Date)

  /** A selected row after `startdate` and `enddate` were turned into text. */
  datatype ProgramDetails = ProgramDetails(
    progname: string,
    progKey: string,
    piname: string,
    basepriority: real,
    startdate: string,
    enddate: string)

  /** What `bcrypt.checkpw` does with the key and a stored hash: it answers,
      or raises ValueError on a hash it cannot parse. */
  datatype KeyCheck = KeyMatches | KeyDiffers | MalformedHash

  /** `EmptyTable` is the TypeError numpy raises for `&` of two empty
      (float) arrays, when the table holds no program at all. */
  datatype CredentialsError = EmptyTable | CredentialsNotFound | MultipleMatches

  /** The flag of the name column for one row: 1 on a match, else 0. */
  function NameFlag(row: ProgramRow, programName: string, compareDigest: (string, string) -> bool): int
  {
    if compareDigest(row.progname, programName) then 1 else 0
  }

  /** The flag of the key column for one row; a hash the check rejects with
      ValueError counts as no match. */
  function KeyFlag(row: ProgramRow, apiKey: string, checkpw: (string, string) -> KeyCheck): int
  {
    if checkpw(apiKey, row.progKey) == KeyMatches then 1 else 0
  }

  /** A row is selected when both its name and its key match. */
  predicate Matches(row: ProgramRow, programName: string, apiKey: string,
                    compareDigest: (string, string) -> bool, checkpw: (string, string) -> KeyCheck)
  {
    compareDigest(row.progname, programName) && checkpw(apiKey, row.progKey) == KeyMatches
  }

  /** The loop that builds `name_match`: one flag per table row, in row order. */
  method NameMatchColumn(data: seq<ProgramRow>, programName: string, compareDigest: (string, string) -> bool)
    returns (nameMatch: seq<int>)
    ensures |nameMatch| == |data|
    ensures forall i | 0 <= i < |data| ::
      (nameMatch[i] == 1 <==> compareDigest(data[i].progname, programName))
      && (nameMatch[i] == 0 <==> !compareDigest(data[i].progname, programName))
  {
    nameMatch := [];
    for i := 0 to |data|
      invariant |nameMatch| == i
      invariant forall j | 0 <= j < i :: nameMatch[j] == NameFlag(data[j], programName, compareDigest)
    {
      nameMatch := nameMatch + [NameFlag(data[i], programName, compareDigest)];
    }
  }

  /** The loop that builds `key_match`: one flag per table row, in row order,
      with 0 where the hash check raises. */
  method KeyMatchColumn(data: seq<ProgramRow>, apiKey: string, checkpw: (string, string) -> KeyCheck)
    returns (keyMatch: seq<int>)
    ensures |keyMatch| == |data|
    ensures forall i | 0 <= i < |data| ::
      (keyMatch[i] == 1 <==> checkpw(apiKey, data[i].progKey) == KeyMatches)
      && (keyMatch[i] == 0 <==> checkpw(apiKey, data[i].progKey) != KeyMatches)
  {
    keyMatch := [];
    for i := 0 to |data|
      invariant |keyMatch| == i
      invariant forall j | 0 <= j < i :: keyMatch[j] == KeyFlag(data[j], apiKey, checkpw)
    {
      var flag;
      match checkpw(apiKey, data[i].progKey) {
        case KeyMatches => flag := 1;
        case KeyDiffers => flag := 0;
        case MalformedHash => flag := 0;
      }
      keyMatch := keyMatch + [flag];
    }
  }

  /** `np.array(a) & np.array(b)` on two 0/1 arrays of one length. */
  function AndMask(a: seq<int>, b: seq<int>): (m: seq<int>)
    requires |a| == |b|
    requires forall i | 0 <= i < |a| :: (a[i] == 0 || a[i] == 1) && (b[i] == 0 || b[i] == 1)
    ensures |m| == |a|
    ensures forall i | 0 <= i < |a| :: (m[i] == 1 <==> a[i] == 1 && b[i] == 1) && (m[i] == 0 || m[i] == 1)
  {
    seq(|a|, i requires 0 <= i < |a| => if a[i] == 1 && b[i] == 1 then 1 else 0)
  }

  /** `np.sum` of a mask. */
  function Sum(m: seq<int>): int
  {
    if m == [] then 0 else Sum(m[..|m| - 1]) + m[|m| - 1]
  }

  /** `data.iloc[mask.astype(bool)]`: the rows at the non-zero positions of
      the mask, in table order. */
  function Select<T>(data: seq<T>, mask: seq<int>): (r: seq<T>)
    requires |mask| == |data|
    ensures |r| <= |data|
  {
    if data == [] then []
    else Select(data[..|data| - 1], mask[..|mask| - 1])
         + (if mask[|mask| - 1] != 0 then [data[|data| - 1]] else [])
  }

  /** The rows of `data` that match, in table order: the reference the mask
      selection is checked against. */
  function MatchingRows(data: seq<ProgramRow>, programName: string, apiKey: string,
                        compareDigest: (string, string) -> bool, checkpw: (string, string) -> KeyCheck)
    : seq<ProgramRow>
  {
    if data == [] then []
    else MatchingRows(data[..|data| - 1], programName, apiKey, compareDigest, checkpw)
         + (if Matches(data[|data| - 1], programName, apiKey, compareDigest, checkpw)
            then [data[|data| - 1]] else [])
  }

  /** With a 0/1 mask that flags exactly the matching rows, the mask's sum
      counts the matching rows and the selection is exactly those rows, in
      table order. */
  lemma {:induction false} SelectByMask(data: seq<ProgramRow>, mask: seq<int>, programName: string, apiKey: string,
                                         compareDigest: (string, string) -> bool, checkpw: (string, string) -> KeyCheck)
    requires |mask| == |data|
    requires forall i | 0 <= i < |data| ::
      (mask[i] == 1 <==> Matches(data[i], programName, apiKey, compareDigest, checkpw)) && (mask[i] == 0 || mask[i] == 1)
    ensures Select(data, mask) == MatchingRows(data, programName, apiKey, compareDigest, checkpw)
    ensures Sum(mask) == |MatchingRows(data, programName, apiKey, compareDigest, checkpw)|
  {
    if data != [] {
      SelectByMask(data[..|data| - 1], mask[..|mask| - 1], programName, apiKey, compareDigest, checkpw);
    }
  }

  /** The matching rows are the rows of `data` that match; no row is lost or
      invented. */
  lemma {:induction false} MatchingRowsMembers(data: seq<ProgramRow>, programName: string, apiKey: string,
                                                compareDigest: (string, string) -> bool, checkpw: (string, string) -> KeyCheck)
    ensures forall row | row in MatchingRows(data, programName, apiKey, compareDigest, checkpw) ::
      row in data && Matches(row, programName, apiKey, compareDigest, checkpw)
    ensures forall row | row in data && Matches(row, programName, apiKey, compareDigest, checkpw) ::
      row in MatchingRows(data, programName, apiKey, compareDigest, checkpw)
  {
    if data != [] {
      MatchingRowsMembers(data[..|data| - 1], programName, apiKey, compareDigest, checkpw);
      assert data == data[..|data| - 1] + [data[|data| - 1]];
    }
  }

  /** The decimal digits of `n`, left-padded with zeros to `width`. */
  function Padded(n: nat, width: nat): (s: string)
    ensures |s| >= width && |s| >= 1
    ensures forall k | 0 <= k < |s| :: '0' <= s[k] <= '9'
    decreases n + width
  {
    if n < 10 && width <= 1 then [('0' as int + n) as char]
    else Padded(n / 10, if width > 0 then width - 1 else 0) + [('0' as int + n % 10) as char]
  }

  /** The value of a string of decimal digits. */
  function DigitsValue(s: string): nat
    requires forall k | 0 <= k < |s| :: '0' <= s[k] <= '9'
  {
    if s == [] then 0 else 10 * DigitsValue(s[..|s| - 1]) + (s[|s| - 1] as int - '0' as int)
  }

  /** Padding never changes the value the digits spell. */
  lemma {:induction false} PaddedValue(n: nat, width: nat)
    ensures DigitsValue(Padded(n, width)) == n
    decreases n + width
  {
    var s := Padded(n, width);
    if !(n < 10 && width <= 1) {
      var w := if width > 0 then width - 1 else 0;
      PaddedValue(n / 10, w);
      assert s[..|s| - 1] == Padded(n / 10, w);
    }
  }

  /** A number below `10^width` takes exactly `width` padded digits. */
  lemma {:induction false} PaddedWidth(n: nat, width: nat)
    requires width >= 1 && n < Pow10(width)
    ensures |Padded(n, width)| == width
    decreases width
  {
    if width > 1 {
      PaddedWidth(n / 10, width - 1);
    }
  }

  function Pow10(k: nat): nat
  {
    if k == 0 then 1 else 10 * Pow10(k - 1)
  }

  /** `str(date)`: the ISO form YYYY-MM-DD. */
  function IsoDate(d: Date): (s: string)
    ensures |s| >= 10
  {
    Padded(d.year, 4) + "-" + Padded(d.month, 2) + "-" + Padded(d.day, 2)
  }

  /** Reads an ISO date of the fixed form `dddd-dd-dd` back. */
  function ParseIsoDate(s: string): Option<Date>
  {
    if |s| == 10 && s[4] == '-' && s[7] == '-'
       && (forall k | 0 <= k < 10 && k != 4 && k != 7 :: '0' <= s[k] <= '9')
    then Some(Date(DigitsValue(s[..4]), DigitsValue(s[5..7]), DigitsValue(s[8..])))
    else None
  }

  predicate AllDigits(s: string)
  {
    forall k | 0 <= k < |s| :: '0' <= s[k] <= '9'
  }

  lemma JoinedDigits(y: string, m: string, dd: string)
    requires |y| == 4 && |m| == 2 && |dd| == 2
    requires AllDigits(y) && AllDigits(m) && AllDigits(dd)
    ensures var s := y + "-" + m + "-" + dd;
      forall k | 0 <= k < 10 && k != 4 && k != 7 :: '0' <= s[k] <= '9'
  {
    var s := y + "-" + m + "-" + dd;
    forall k | 0 <= k < 10 && k != 4 && k != 7
      ensures '0' <= s[k] <= '9'
    {
      if k < 4 {
        assert s[k] == y[k];
      } else if k < 7 {
        assert s[k] == m[k - 5];
      } else {
        assert s[k] == dd[k - 8];
      }
    }
  }

  /** Three digit strings of widths 4, 2 and 2 joined by dashes read back
      as the numbers they spell. */
  lemma ParseJoined(y: string, m: string, dd: string)
    requires |y| == 4 && |m| == 2 && |dd| == 2
    requires AllDigits(y) && AllDigits(m) && AllDigits(dd)
    ensures ParseIsoDate(y + "-" + m + "-" + dd) == Some(Date(DigitsValue(y), DigitsValue(m), DigitsValue(dd)))
  {
    var s := y + "-" + m + "-" + dd;
    JoinedDigits(y, m, dd);
    assert s[4] == '-' && s[7] == '-';
    assert s[..4] == y && s[5..7] == m && s[8..] == dd;
  }

  /** For every date `datetime.date` can hold (years 1 to 9999), the text is
      ten characters long and reads back as the same date. */
  lemma IsoDateRoundTrip(d: Date)
    requires 1 <= d.year <= 9999 && 1 <= d.month <= 12 && 1 <= d.day <= 31
    ensures |IsoDate(d)| == 10
    ensures ParseIsoDate(IsoDate(d)) == Some(d)
  {
    assert Pow10(4) == 10000 && Pow10(2) == 100;
    PaddedWidth(d.year, 4);
    PaddedWidth(d.month, 2);
    PaddedWidth(d.day, 2);
    PaddedValue(d.year, 4);
    PaddedValue(d.month, 2);
    PaddedValue(d.day, 2);
    ParseJoined(Padded(d.year, 4), Padded(d.month, 2), Padded(d.day, 2));
  }

  /** `data[col].astype(str)` for the two date columns. */
  function WithTextDates(row: ProgramRow): (r: ProgramDetails)
    ensures r.progname == row.progname && r.progKey == row.progKey
    ensures r.piname == row.piname && r.basepriority == row.basepriority
    ensures r.startdate == IsoDate(row.startdate) && r.enddate == IsoDate(row.enddate)
  {
    ProgramDetails(row.progname, row.progKey, row.piname, row.basepriority,
                   IsoDate(row.startdate), IsoDate(row.enddate))
  }

  /** `get_program_details` after the fetch: the two flag loops, the mask
      (which numpy refuses to build from two empty lists), the no-match error, the selection, the multiple-match assertion and the
      date conversion. */
  method GetProgramDetails(data: seq<ProgramRow>, programName: string, apiKey: string,
                           compareDigest: (string, string) -> bool, checkpw: (string, string) -> KeyCheck)
    returns (r: Result<seq<ProgramDetails>, CredentialsError>)
    ensures r == Err(EmptyTable) <==> data == []
    ensures r == Err(CredentialsNotFound) <==>
      data != [] && forall row | row in data :: !Matches(row, programName, apiKey, compareDigest, checkpw)
    ensures r == Err(MultipleMatches) <==>
      |MatchingRows(data, programName, apiKey, compareDigest, checkpw)| > 1
    ensures r.Ok? <==> |MatchingRows(data, programName, apiKey, compareDigest, checkpw)| == 1
    ensures r.Ok? ==>
      var matching := MatchingRows(data, programName, apiKey, compareDigest, checkpw);
      && r.value == [WithTextDates(matching[0])]
      && matching[0] in data
      && forall row | row in data && Matches(row, programName, apiKey, compareDigest, checkpw) :: row == matching[0]
  {
    var nameMatch := NameMatchColumn(data, programName, compareDigest);
    var keyMatch := KeyMatchColumn(data, apiKey, checkpw);
    if data == [] {
      return Err(EmptyTable);
    }
    var mask := AndMask(nameMatch, keyMatch);
    SelectByMask(data, mask, programName, apiKey, compareDigest, checkpw);
    MatchingRowsMembers(data, programName, apiKey, compareDigest, checkpw);
    ghost var matching := MatchingRows(data, programName, apiKey, compareDigest, checkpw);
    if Sum(mask) == 0 {
      assert matching == [];
      return Err(CredentialsNotFound);
    }
    assert matching[0] in matching;
    var selected := Select(data, mask);
    if Sum(mask) != 1 {
      return Err(MultipleMatches);
    }
    assert selected == matching == [matching[0]];
    return Ok([WithTextDates(selected[0])]);
  }
}
