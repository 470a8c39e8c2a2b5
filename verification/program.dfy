/** Program records (wintertoo/models/program.py): credentials and the full
    program entry, with their construction-time checks. Dates are day
    numbers; only their order matters here. */
module ProgramModels {
  import opened Wrappers

  /** `ProgramCredentials`: the program name must be exactly eight characters. */
  predicate CredentialsValid(progname: string)
  {
    |progname| == 8
  }

  /** The keyword arguments of a `Program`; `None` where omitted, `extraKeys`
      for undeclared keywords. */
  datatype ProgramInput = ProgramInput(
    progname: string,
    progKey: string,
    puid: Option<int>,
    progid: Option<int>,
    piName: Option<string>,
    piEmail: Option<string>,
    startdate: int,
    enddate: int,
    hoursAllocated: Option<real>,
    hoursUsed: Option<real>,
    maxpriority: real,
    progtitle: Option<string>,
    extraKeys: seq<string>)

  /** A constructed program; the optional text fields stay `None` when omitted. */
  datatype Program = Program(
    progname: string,
    progKey: string,
    puid: Option<int>,
    progid: int,
    piName: Option<string>,
    piEmail: Option<string>,
    startdate: int,
    enddate: int,
    hoursAllocated: real,
    hoursUsed: real,
    maxpriority: real,
    progtitle: Option<string>)

  datatype ProgramError = InvalidFields(names: seq<string>) | DatesNotOrdered | BadTimeAllocation

  function Flag(bad: bool, name: string): seq<string>
  {
    if bad then [name] else []
  }

  predicate EmptyText(o: Option<string>)
  {
    o.Some? && |o.value| < 1
  }

  /** Supplied fields breaking their bounds, then undeclared keywords. */
  function FieldViolations(i: ProgramInput): seq<string>
  {
    Flag(!CredentialsValid(i.progname), "progname")
    + Flag(EmptyText(i.piName), "pi_name")
    + Flag(EmptyText(i.piEmail), "pi_email")
    + Flag(i.hoursAllocated.Some? && i.hoursAllocated.value < 0.0, "hours_allocated")
    + Flag(i.hoursUsed.Some? && i.hoursUsed.value < 0.0, "hours_used")
    + Flag(EmptyText(i.progtitle), "progtitle")
    + i.extraKeys
  }

  function Resolve(i: ProgramInput): (p: Program)
    ensures p.progid == (if i.progid.Some? then i.progid.value else 1)
    ensures p.hoursAllocated == (if i.hoursAllocated.Some? then i.hoursAllocated.value else 0.0)
    ensures p.hoursUsed == (if i.hoursUsed.Some? then i.hoursUsed.value else 0.0)
    ensures p.progname == i.progname && p.startdate == i.startdate && p.enddate == i.enddate
    ensures p.piName == i.piName && p.piEmail == i.piEmail && p.progtitle == i.progtitle
  {
    Program(
      i.progname, i.progKey, i.puid,
      if i.progid.Some? then i.progid.value else 1,
      i.piName, i.piEmail, i.startdate, i.enddate,
      if i.hoursAllocated.Some? then i.hoursAllocated.value else 0.0,
      if i.hoursUsed.Some? then i.hoursUsed.value else 0.0,
      i.maxpriority, i.progtitle)
  }

  /** What every constructed program satisfies. */
  predicate WellFormed(p: Program)
  {
    && CredentialsValid(p.progname)
    && p.startdate < p.enddate
    && 0.0 <= p.hoursUsed <= p.hoursAllocated
    && (p.piName.Some? ==> |p.piName.value| >= 1)
    && (p.piEmail.Some? ==> |p.piEmail.value| >= 1)
    && (p.progtitle.Some? ==> |p.progtitle.value| >= 1)
  }

  /** Construct a program: field bounds first, then `check_date` (end strictly
      after start), then `validate_time_allocation` (used within allocation). */
  function MakeProgram(i: ProgramInput): (r: Result<Program, ProgramError>)
    ensures r.Ok? <==> (
      FieldViolations(i) == [] && i.startdate < i.enddate
      && 0.0 <= Resolve(i).hoursUsed <= Resolve(i).hoursAllocated)
    ensures r.Ok? ==> r.value == Resolve(i) && WellFormed(r.value)
    ensures r.Ok? ==> r.value.hoursAllocated >= 0.0
    ensures r.Err? && r.error.InvalidFields? ==> r.error.names == FieldViolations(i) != []
    ensures r == Err(DatesNotOrdered) ==> FieldViolations(i) == [] && i.enddate <= i.startdate
    ensures r == Err(BadTimeAllocation) ==> (
      FieldViolations(i) == [] && i.startdate < i.enddate
      && !(0.0 <= Resolve(i).hoursUsed <= Resolve(i).hoursAllocated))
  {
    var bad := FieldViolations(i);
    var p := Resolve(i);
    if bad != [] then Err(InvalidFields(bad))
    else if !(p.enddate > p.startdate) then Err(DatesNotOrdered)
    else if !(p.hoursUsed <= p.hoursAllocated && p.hoursUsed >= 0.0) then Err(BadTimeAllocation)
    else
      assert "progname" !in bad && "pi_name" !in bad && "pi_email" !in bad && "progtitle" !in bad;
      Ok(p)
  }
}
