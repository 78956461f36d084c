/** The records the dashboards keep in their state (types/dashboard.d.ts).
    Every list entity carries a numeric `id`; the string-literal unions of
    the source become enumerations. A JavaScript `Date` is an `Instant`, an
    opaque point in time that the model only stores and compares. */
module Entities {
  import opened Wrappers
  import opened Js

  datatype Role = StudentRole | MentorRole | AdminRole | CompanyRole

  /** The `role` tag the source writes for each role. */
  function RoleName(r: Role): string
  {
    match r
    case StudentRole => "student"
    case MentorRole => "mentor"
    case AdminRole => "admin"
    case CompanyRole => "company"
  }

  /** The role a tag names, if it names one. */
  function ParseRole(s: string): (r: Option<Role>)
    ensures r.Some? ==> RoleName(r.value) == s
  {
    if s == "student" then Some(StudentRole)
    else if s == "mentor" then Some(MentorRole)
    else if s == "admin" then Some(AdminRole)
    else if s == "company" then Some(CompanyRole)
    else None
  }

  /** Student and mentor are the roles that belong to a cohort. */
  predicate HasCohort(r: Role)
  {
    r == StudentRole || r == MentorRole
  }

  /** A user is exactly one of the four roles; only students and mentors
      carry a cohort. */
  datatype User =
    | Student(id: int, name: string, email: string, cohort: int)
    | Mentor(id: int, name: string, email: string, cohort: int)
    | Admin(id: int, name: string, email: string)
    | Company(id: int, name: string, email: string)
  {
    function Role(): Role
    {
      match this
      case Student(_, _, _, _) => StudentRole
      case Mentor(_, _, _, _) => MentorRole
      case Admin(_, _, _) => AdminRole
      case Company(_, _, _) => CompanyRole
    }

    /** `user.cohort` read through a cast, as the edit path does: a number
        for students and mentors, `undefined` otherwise. */
    function CohortField(): (c: Option<Num>)
      ensures c.Some? <==> HasCohort(Role())
      ensures c.Some? ==> c.value.Int?
    {
      if Student? || Mentor? then Some(Int(cohort)) else None
    }
  }

  /** The tag of every user round-trips through `ParseRole`. */
  lemma RoleNameRoundTrip(r: Role)
    ensures ParseRole(RoleName(r)) == Some(r)
  {
  }

  datatype WorkshopType = Technical | SoftSkills | English

  /** The `type` tag the source writes for each workshop type. */
  function WorkshopTypeName(t: WorkshopType): string
  {
    match t
    case Technical => "technical"
    case SoftSkills => "soft-skills"
    case English => "english"
  }

  /** The workshop type a tag names, if it names one. */
  function ParseWorkshopType(s: string): (r: Option<WorkshopType>)
    ensures r.Some? ==> WorkshopTypeName(r.value) == s
  {
    if s == "technical" then Some(Technical)
    else if s == "soft-skills" then Some(SoftSkills)
    else if s == "english" then Some(English)
    else None
  }

  /** The tag of every workshop type round-trips through `ParseWorkshopType`. */
  lemma WorkshopTypeNameRoundTrip(t: WorkshopType)
    ensures ParseWorkshopType(WorkshopTypeName(t)) == Some(t)
  {
  }

  datatype Workshop = Workshop(
    id: int,
    title: string,
    kind: WorkshopType,
    date: string,
    time: string,
    location: string,
    attendees: int)

  datatype PositionStatus = Open | Closed

  datatype InternshipPosition = InternshipPosition(
    id: int,
    title: string,
    department: string,
    location: string,
    status: PositionStatus,
    applicants: int)

  datatype Candidate = Candidate(id: int, name: string, skills: seq<string>, matchPercentage: int)

  /** The interview outcome tags "accepted", "rejected" and "pending". */
  datatype InterviewDecision = Accepted | Rejected | InterviewPending

  /** One scheduled interview. `interviewDate`, `status` and `decisionNotes`
      are `None` when the record lacks them, which is how the scheduling
      handler stores every record. */
  datatype ScheduledInterview = ScheduledInterview(
    date: string,
    time: string,
    notes: string,
    interviewDate: Option<string>,
    status: Option<InterviewDecision>,
    decisionNotes: Option<string>)

  /** The interviews of a company, keyed by candidate id. */
  type ScheduledInterviews = map<int, ScheduledInterview>

  datatype EvaluationStatus = Passed | Failed | Pending

  /** The tag the source writes for each status. */
  function StatusName(s: EvaluationStatus): string
  {
    match s
    case Passed => "passed"
    case Failed => "failed"
    case Pending => "pending"
  }

  /** The status a tag names, if it names one. */
  function ParseStatus(s: string): (r: Option<EvaluationStatus>)
    ensures r.Some? ==> StatusName(r.value) == s
  {
    if s == "passed" then Some(Passed)
    else if s == "failed" then Some(Failed)
    else if s == "pending" then Some(Pending)
    else None
  }

  /** The tag of every status round-trips through `ParseStatus`. */
  lemma StatusNameRoundTrip(s: EvaluationStatus)
    ensures ParseStatus(StatusName(s)) == Some(s)
  {
  }

  datatype ProjectEvaluation = ProjectEvaluation(
    id: int,
    studentName: string,
    projectName: string,
    dueDate: string,
    evaluationStatus: Option<EvaluationStatus>,
    technicalSkills: int,
    feedback: string)

  /** A point in time (a JavaScript `Date`), supplied by the caller. */
  datatype Instant = Instant(ticks: int)

  /** `technicalSkills` holds whatever `parseInt` or `Number` made of the
      form's text, so it may be `NaN`. */
  datatype WeeklyEvaluation = WeeklyEvaluation(
    id: int,
    studentName: string,
    technicalSkills: Num,
    weeklyProgress: int,
    notes: string,
    lastUpdated: Option<Instant>)

  datatype CalendarEvent = CalendarEvent(title: string, time: string, location: string, description: Option<string>)

  datatype CalendarDay = CalendarDay(date: Instant, events: seq<CalendarEvent>)

  /** What the user form hands to the upsert handler. `role` is the raw
      selection ("" when nothing usable was chosen); `cohort` is present
      only for students and mentors and is whatever `parseInt` made of it. */
  datatype NewUserFormData = NewUserFormData(name: string, email: string, role: string, cohort: Option<Num>)

  /** What the workshop form hands to the add handler; `attendees` is
      `None` when the payload has no such key. */
  datatype NewWorkshopFormData = NewWorkshopFormData(
    title: string,
    kind: WorkshopType,
    date: string,
    time: string,
    location: string,
    attendees: Option<int>)
}
