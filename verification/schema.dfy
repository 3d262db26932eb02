/**
 * The persisted tables of the dashboard (convex/schema.ts) as Dafny values.
 *
 * Every organization-scoped row (call, client, booking, task) carries the
 * external organization id `orgClerkId`. Row ids are natural numbers handed
 * out by the store; `_creationTime`, storage ids and the free-form
 * `structuredData` of a call are not part of this model.
 */
module Schema {
  import opened Wrappers

  type Id = nat
  type UserId = Id
  type CallId = Id
  type ClientId = Id
  type BookingId = Id
  type TaskId = Id

  /** The caller's identity: the authentication subject id, or None when unauthenticated. */
  type Identity = Option<string>

  /** What the queries and mutations throw. */
  datatype Error =
    | Unauthenticated   // "You must be logged in ..." / "... without authentication present"
    | PermissionDenied  // "You do not have permission to ..."
    | NotFound          // "Call or transcript not found." / "Task not found"

  type Outcome<T> = Result<T, Error>

  datatype Role = Admin | Member

  /** One entry of a user's `orgIds` array. */
  datatype Membership = Membership(orgId: string, role: Role)

  datatype Organization = Organization(id: Id, clerkId: string, name: string)

  datatype User = User(id: UserId, clerkId: string, orgIds: seq<Membership>)

  datatype CallStatus = Processing | Completed | Failed

  datatype Call = Call(
    orgClerkId: string,
    clientPhoneNumber: string,
    status: CallStatus,
    transcript: Option<string>,
    summary: Option<string>)

  datatype Client = Client(orgClerkId: string, name: string, phoneNumber: string)

  datatype BookingStatus = Pending | Confirmed | Completed

  /** A booking references a client and a call; `appointmentDate` is a Unix timestamp. */
  datatype Booking = Booking(
    orgClerkId: string,
    clientId: ClientId,
    callId: CallId,
    service: string,
    appointmentDate: int,
    status: BookingStatus)

  datatype TaskStatus = Pending | Completed

  /** A follow-up task of a call; `dueDate` is an optional Unix timestamp. */
  datatype Task = Task(
    orgClerkId: string,
    callId: CallId,
    description: string,
    dueDate: Option<int>,
    status: TaskStatus)

  // The string literals of each `v.union(v.literal(..), ..)` validator, and the
  // validator itself: it accepts exactly the listed literals.

  function RoleName(r: Role): string {
    match r
    case Admin => "admin"
    case Member => "member"
  }

  function ParseRole(s: string): (r: Option<Role>)
    ensures r.Some? <==> s == "admin" || s == "member"
    ensures r.Some? ==> RoleName(r.value) == s
  {
    if s == "admin" then Some(Admin)
    else if s == "member" then Some(Member)
    else None
  }

  function CallStatusName(st: CallStatus): string {
    match st
    case Processing => "processing"
    case Completed => "completed"
    case Failed => "failed"
  }

  function ParseCallStatus(s: string): (r: Option<CallStatus>)
    ensures r.Some? <==> s == "processing" || s == "completed" || s == "failed"
    ensures r.Some? ==> CallStatusName(r.value) == s
  {
    if s == "processing" then Some(CallStatus.Processing)
    else if s == "completed" then Some(CallStatus.Completed)
    else if s == "failed" then Some(CallStatus.Failed)
    else None
  }

  function BookingStatusName(st: BookingStatus): string {
    match st
    case Pending => "pending"
    case Confirmed => "confirmed"
    case Completed => "completed"
  }

  function ParseBookingStatus(s: string): (r: Option<BookingStatus>)
    ensures r.Some? <==> s == "pending" || s == "confirmed" || s == "completed"
    ensures r.Some? ==> BookingStatusName(r.value) == s
  {
    if s == "pending" then Some(BookingStatus.Pending)
    else if s == "confirmed" then Some(BookingStatus.Confirmed)
    else if s == "completed" then Some(BookingStatus.Completed)
    else None
  }

  function TaskStatusName(st: TaskStatus): string {
    match st
    case Pending => "pending"
    case Completed => "completed"
  }

  function ParseTaskStatus(s: string): (r: Option<TaskStatus>)
    ensures r.Some? <==> s == "pending" || s == "completed"
    ensures r.Some? ==> TaskStatusName(r.value) == s
  {
    if s == "pending" then Some(TaskStatus.Pending)
    else if s == "completed" then Some(TaskStatus.Completed)
    else None
  }

  /** Every literal of every enum is accepted by its validator and read back as itself. */
  lemma LiteralsRoundTrip(r: Role, cs: CallStatus, bs: BookingStatus, ts: TaskStatus)
    ensures ParseRole(RoleName(r)) == Some(r)
    ensures ParseCallStatus(CallStatusName(cs)) == Some(cs)
    ensures ParseBookingStatus(BookingStatusName(bs)) == Some(bs)
    ensures ParseTaskStatus(TaskStatusName(ts)) == Some(ts)
  {
  }
}
