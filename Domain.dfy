/** Value types shared by the task service: identifiers, timestamps, the task
    record, the input DTO the API binds, and the kinds of error the services raise. */
module Domain {

  datatype Option<+T> = None | Some(value: T)

  datatype Result<+T, +E> = Success(value: T) | Failure(error: E)

  /** System.DateTime counts ticks of 100 ns from 0001-01-01. */
  const TicksPerMinute: int := 600_000_000
  const TicksPerHour: int := 60 * TicksPerMinute
  /** DateTime.MaxValue.Ticks */
  const MaxTicks: int := 3_155_378_975_999_999_999

  type DateTime = t: int | 0 <= t <= MaxTicks

  const MaxValue: DateTime := MaxTicks

  /** A C# `int`. */
  type Int32 = x: int | -0x8000_0000 <= x < 0x8000_0000

  /** A 128-bit Guid, with Guid.Empty as zero. */
  type Guid = nat
  const EmptyGuid: Guid := 0

  /** The TaskProgress enumeration. Completed and Overdue are terminal for the sweep. */
  datatype TaskProgress = Pending | InProgress | Completed | Overdue

  /** The persisted entity (Data/Models/UserTask.cs). The summary and detail DTOs
      have the same fields and are mapped field for field, so they share this type. */
  datatype UserTask = UserTask(
    id: Guid,
    title: Option<string>,
    description: Option<string>,
    dueDate: Option<DateTime>,
    status: TaskProgress)

  /** The request body of create and update (DTOs/UserTaskInput.cs). */
  datatype UserTaskInput = UserTaskInput(
    id: Guid,
    title: Option<string>,
    description: Option<string>,
    dueDate: Option<DateTime>,
    status: TaskProgress)

  /** The exceptions the services throw, one constructor per exception class. */
  datatype Error =
    | ArgumentError(message: string)       // ArgumentException
    | KeyNotFound(id: Guid)                 // KeyNotFoundException "Task with ID {id} not found"
    | InvalidOperation(message: string)    // InvalidOperationException
    | UpstreamFailure                       // HttpRequestException or JsonException from the rates feed
    | StoreFailure                          // DbUpdateException from SaveChangesAsync
    | NullReference                         // NullReferenceException

  /** char.IsWhiteSpace: the Unicode space separators, line and paragraph
      separators, and the control characters U+0009..U+000D, U+0085. */
  predicate IsWhiteSpace(c: char)
  {
    || '\U{9}' <= c <= '\U{D}'
    || c == ' ' || c == '\U{85}' || c == '\U{A0}' || c == '\U{1680}'
    || '\U{2000}' <= c <= '\U{200A}'
    || c == '\U{2028}' || c == '\U{2029}' || c == '\U{202F}' || c == '\U{205F}' || c == '\U{3000}'
  }

  function AllWhiteSpace(s: string): (r: bool)
    ensures r <==> forall i :: 0 <= i < |s| ==> IsWhiteSpace(s[i])
  {
    if s == [] then true else IsWhiteSpace(s[0]) && AllWhiteSpace(s[1..])
  }

  /** string.IsNullOrWhiteSpace */
  function IsNullOrWhiteSpace(s: Option<string>): (r: bool)
    ensures !r <==> s.Some? && exists i :: 0 <= i < |s.value| && !IsWhiteSpace(s.value[i])
  {
    match s
    case None => true
    case Some(text) => AllWhiteSpace(text)
  }
}
