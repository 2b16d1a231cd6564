/** Shared vocabulary of the backend: identifiers, timestamps, the status
    enumerations of the constants modules and the AppError result type. */
module Common {

  datatype Option<+T> = None | Some(value: T) {
    function GetOr(default: T): T {
      if Some? then value else default
    }
  }

  /** Row identifiers (uuids in the store) are abstract naturals. */
  type Id = nat

  /** Timestamps are milliseconds since the epoch, as JavaScript's Date.getTime. */
  type Time = int

  const SecondMs: int := 1000
  const MinuteMs: int := 60 * SecondMs
  const HourMs: int := 60 * MinuteMs
  const DayMs: int := 24 * HourMs

  /** The calendar date (a day index since 1970-01-01) of a timestamp, read in UTC. */
  function DayOf(t: Time): int {
    t / DayMs
  }

  /** Midnight (UTC) at the start of a day index. */
  function DayStart(day: int): Time {
    day * DayMs
  }

  /** Day of the week of a day index, 0 = Sunday; 1970-01-01 was a Thursday. */
  function DayOfWeek(day: int): (d: int)
    ensures 0 <= d < 7
  {
    (day + 4) % 7
  }

  /** JavaScript truthiness of an optional string: present and non-empty. */
  predicate Present(s: Option<string>) {
    s.Some? && s.value != ""
  }

  // ROLES, WORKSPACE_STATUSES, BOOKING_STATUSES and FORM_SUBMISSION_STATUSES.

  datatype Role = Owner | Staff
  const Roles: seq<Role> := [Owner, Staff]

  datatype WorkspaceStatus = Draft | Active
  const WorkspaceStatuses: seq<WorkspaceStatus> := [Draft, Active]

  datatype BookingStatus = Confirmed | Completed | NoShow | Cancelled
  const BookingStatuses: seq<BookingStatus> := [Confirmed, BookingStatus.Completed, NoShow, Cancelled]

  datatype SubmissionStatus = Pending | Overdue | Completed
  const FormSubmissionStatuses: seq<SubmissionStatus> := [Pending, Overdue, SubmissionStatus.Completed]

  /** The two delivery channels; also the `type` of an integration row. */
  datatype Channel = Email | Sms

  datatype Direction = In | Out

  /** An error thrown by a service: HTTP status, message and optional code. */
  datatype AppError = AppError(statusCode: int, message: string, code: Option<string>)

  function Fail(status: int, message: string): AppError {
    AppError(status, message, None)
  }

  datatype Result<+T> = Ok(value: T) | Err(error: AppError) {
    predicate IsFailure() {
      Err?
    }
    function PropagateFailure<U>(): Result<U>
      requires Err?
    {
      Err(error)
    }
    function Extract(): T
      requires Ok?
    {
      value
    }
  }
}
