/** The application's records: users, utility contracts, crews and their
    members, time entries and exceptions. Timestamps are integers
    (milliseconds since 1970-01-01 UTC); hour counts are exact reals. */
module Types {
  import opened Seqs

  datatype UserRole = SuperAdmin | Admin | Viewer

  datatype User = User(
    id: string,
    username: string,
    email: string,
    role: UserRole,
    active: bool,
    createdAt: string,
    lastLogin: Option<string>,
    fullName: string)

  datatype UtilityContract = UtilityContract(
    id: string,
    utilityName: string,
    stormEvent: string,
    region: string,
    active: bool,
    startDate: string,
    endDate: Option<string>,
    contractNumber: string)

  datatype CrewMember = CrewMember(
    id: string,
    name: string,
    role: string,
    hourlyRate: Option<int>,
    active: bool)

  datatype Crew = Crew(
    id: string,
    crewName: string,
    utilityContractId: string,
    members: seq<CrewMember>,
    active: bool,
    supervisorId: string,
    equipmentAssigned: seq<string>)

  datatype EntryStatus = Draft | Submitted | Approved | Rejected

  /** The wire spelling of a time entry status. */
  function EntryStatusText(s: EntryStatus): string
  {
    match s
    case Draft => "draft"
    case Submitted => "submitted"
    case Approved => "approved"
    case Rejected => "rejected"
  }

  /** `date` is the entry's calendar date read as a timestamp (its midnight,
      UTC), the way `new Date(date)` reads it; `submittedAt` is absent when
      the entry was never submitted or the field is empty. */
  datatype TimeEntry = TimeEntry(
    id: string,
    crewId: string,
    memberId: string,
    date: int,
    startTime: string,
    endTime: string,
    hoursRegular: real,
    hoursOvertime: real,
    status: EntryStatus,
    submittedBy: string,
    submittedAt: Option<int>,
    location: string,
    workDescription: string)

  datatype ExceptionStatus = Submitted | UnderReview | Accepted | Rejected

  /** The wire spelling of an exception status. */
  function ExceptionStatusText(s: ExceptionStatus): string
  {
    match s
    case Submitted => "submitted"
    case UnderReview => "under_review"
    case Accepted => "accepted"
    case Rejected => "rejected"
  }

  datatype Exception = Exception(
    id: string,
    timeEntryId: string,
    flaggedBy: string,
    reason: string,
    description: string,
    status: ExceptionStatus,
    createdAt: int,
    resolvedAt: Option<int>,
    resolvedBy: Option<string>,
    adminNotes: Option<string>)
}

/** The weekly timesheet grid's records: one attendance cell per member and
    date, dates being day numbers (day 0 is 1970-01-01). */
module TimesheetTypes {
  import opened Seqs

  datatype DayStatus = Submitted | Approved | Pending | Missing

  /** The wire spelling of a day status. */
  function DayStatusText(s: DayStatus): string
  {
    match s
    case Submitted => "submitted"
    case Approved => "approved"
    case Pending => "pending"
    case Missing => "missing"
  }

  datatype DayCell = DayCell(hasEntry: bool, status: DayStatus, hours: Option<int>)

  datatype MemberTimesheet = MemberTimesheet(
    id: string,
    memberName: string,
    role: string,
    weeklyData: map<int, DayCell>)

  datatype CrewTimesheet = CrewTimesheet(
    id: string,
    crewName: string,
    utilityCompany: string,
    members: seq<MemberTimesheet>)

  /** A row of the sample crew table the generator reads. */
  datatype SampleCrew = SampleCrew(id: string, crewName: string, utilityCompany: string)

  /** A row of the sample roster: which crew a member belongs to. */
  datatype SampleMember = SampleMember(crewId: string, memberName: string, role: string)
}
