/** UserTaskController (and the one mapping of CurrencyController): the list
    filters the controller applies on top of the service, and the translation of
    service outcomes into HTTP status codes. ModelState validity is the input
    validation of module Validation, evaluated at the same `now` as the service. */
module Controller {
  import opened Domain
  import opened Seqs
  import opened Data
  import opened Repository
  import opened Service
  import opened Sweeper
  import Validation

  const Status200OK := 200
  const Status201Created := 201
  const Status204NoContent := 204
  const Status400BadRequest := 400
  const Status404NotFound := 404
  const Status409Conflict := 409
  const Status500InternalServerError := 500

  /** An action result: the status code and, for 200 and 201, the payload. */
  datatype Response<T> = Response(statusCode: int, body: Option<T>)

  /** The catch clauses of GetTaskById and UpdateTask: ArgumentException is a
      bad request, KeyNotFoundException not found, anything else a server error. */
  function LookupErrorStatus(e: Error): (code: int)
    ensures code == Status400BadRequest <==> e.ArgumentError?
    ensures code == Status404NotFound <==> e.KeyNotFound?
    ensures code == Status500InternalServerError <==> !e.ArgumentError? && !e.KeyNotFound?
  {
    match e
    case ArgumentError(_) => Status400BadRequest
    case KeyNotFound(_) => Status404NotFound
    case _ => Status500InternalServerError
  }

  /** The catch clauses of CreateTask: only ArgumentException is a bad request. */
  function CreateErrorStatus(e: Error): (code: int)
    ensures code == Status400BadRequest <==> e.ArgumentError?
    ensures code == Status500InternalServerError <==> !e.ArgumentError?
  {
    if e.ArgumentError? then Status400BadRequest else Status500InternalServerError
  }

  /** The catch clauses of DeleteTask, which add InvalidOperationException as
      a conflict. */
  function DeleteErrorStatus(e: Error): (code: int)
    ensures code == Status400BadRequest <==> e.ArgumentError?
    ensures code == Status404NotFound <==> e.KeyNotFound?
    ensures code == Status409Conflict <==> e.InvalidOperation?
    ensures code == Status500InternalServerError <==> !e.ArgumentError? && !e.KeyNotFound? && !e.InvalidOperation?
  {
    match e
    case ArgumentError(_) => Status400BadRequest
    case KeyNotFound(_) => Status404NotFound
    case InvalidOperation(_) => Status409Conflict
    case _ => Status500InternalServerError
  }

  /** The boolean outcome of update and delete: false is not found, true is
      no content. */
  function BoolResultStatus(ok: bool): (code: int)
    ensures code == Status204NoContent <==> ok
    ensures code == Status404NotFound <==> !ok
  {
    if ok then Status204NoContent else Status404NotFound
  }

  /** CurrencyController.GetCurrencyRate: an argument error (unknown code) is
      not found, anything else a server error. */
  function CurrencyErrorStatus(e: Error): (code: int)
    ensures code == Status404NotFound <==> e.ArgumentError?
    ensures code == Status500InternalServerError <==> !e.ArgumentError?
  {
    if e.ArgumentError? then Status404NotFound else Status500InternalServerError
  }

  /** GetTasksByStatus: the tasks with exactly that status, in store order. */
  function FilterByStatus(tasks: seq<UserTask>, status: TaskProgress): (r: seq<UserTask>)
    ensures forall t :: t in r <==> t in tasks && t.status == status
    ensures |r| <= |tasks|
  {
    Where(tasks, (t: UserTask) => t.status == status)
  }

  /** The status filter keeps the store order: filtering two runs of records
      is filtering each and joining the results. */
  lemma FilterByStatusKeepsOrder(a: seq<UserTask>, b: seq<UserTask>, status: TaskProgress)
    ensures FilterByStatus(a + b, status) == FilterByStatus(a, status) + FilterByStatus(b, status)
  {
    WhereAppend(a, b, (t: UserTask) => t.status == status);
  }

  predicate InOverdueView(t: UserTask, now: DateTime)
  {
    t.dueDate.Some? && t.dueDate.value < now && t.status != Completed
  }

  /** GetOverdueTasks: due before now and not Completed; unlike the sweep's
      query, tasks already marked Overdue are included. */
  function OverdueView(tasks: seq<UserTask>, now: DateTime): (r: seq<UserTask>)
    ensures forall t :: t in r <==> t in tasks && InOverdueView(t, now)
  {
    Where(tasks, t => InOverdueView(t, now))
  }

  /** The overdue view holds what the sweep would select and also the tasks it
      already marked; after a sweep at the same instant every task in the view
      is marked Overdue. */
  lemma OverdueViewAndSweep(tasks: seq<UserTask>, now: DateTime)
    ensures forall t :: t in tasks && IsOverdueCandidate(t, now) ==> t in OverdueView(tasks, now)
    ensures forall t :: t in OverdueView(tasks, now) ==> IsOverdueCandidate(t, now) || t.status == Overdue
    ensures forall t :: t in OverdueView(SweepResult(tasks, now), now) ==> t.status == Overdue
  {
    var after := SweepResult(tasks, now);
    forall t | t in OverdueView(after, now) ensures t.status == Overdue {
      var j :| 0 <= j < |after| && after[j] == t;
      assert after[j] == MarkIfOverdue(tasks[j], now);
    }
  }

  /** `DateTime.Now.AddHours(hours)`: fails (ArgumentOutOfRangeException) when
      the sum leaves the DateTime range. */
  function Deadline(now: DateTime, hours: Int32): (r: Option<DateTime>)
    ensures r.Some? <==> 0 <= now + hours * TicksPerHour <= MaxTicks
    ensures r.Some? ==> r.value - now == hours * TicksPerHour
  {
    var ticks := now + hours * TicksPerHour;
    if 0 <= ticks <= MaxTicks then Some(ticks) else None
  }

  predicate DueWithin(t: UserTask, now: DateTime, deadline: DateTime)
  {
    t.dueDate.Some? && now < t.dueDate.value <= deadline && t.status != Completed
  }

  function DueWithinFilter(now: DateTime, deadline: DateTime): UserTask -> bool
  {
    t => DueWithin(t, now, deadline)
  }

  const DefaultUpcomingHours: Int32 := 24

  /** GetUpcomingDeadlines: due after now and no later than the deadline, and
      not Completed; a deadline outside the DateTime range is a server error. */
  function UpcomingDeadlines(tasks: seq<UserTask>, now: DateTime, hours: Int32 := DefaultUpcomingHours): (r: Response<seq<UserTask>>)
    ensures r.statusCode == Status200OK <==> Deadline(now, hours).Some?
    ensures r.statusCode != Status200OK ==> r == Response(Status500InternalServerError, None)
    ensures r.statusCode == Status200OK ==>
      && r.body.Some?
      && forall t :: t in r.body.value <==> t in tasks && DueWithin(t, now, Deadline(now, hours).value)
  {
    match Deadline(now, hours)
    case None => Response(Status500InternalServerError, None)
    case Some(deadline) => Response(Status200OK, Some(Where(tasks, DueWithinFilter(now, deadline))))
  }

  /** A window of zero or fewer hours lists nothing. */
  lemma NoUpcomingWithoutHours(tasks: seq<UserTask>, now: DateTime, hours: Int32)
    requires hours <= 0 && Deadline(now, hours).Some?
    ensures UpcomingDeadlines(tasks, now, hours).body == Some([])
  {
    WhereNone(tasks, DueWithinFilter(now, Deadline(now, hours).value));
  }

  /** A task cannot be both upcoming and overdue at the same instant. */
  lemma UpcomingAndOverdueDisjoint(tasks: seq<UserTask>, now: DateTime, hours: Int32, t: UserTask)
    requires Deadline(now, hours).Some?
    requires t in UpcomingDeadlines(tasks, now, hours).body.value
    ensures t !in OverdueView(tasks, now)
  {
  }

  class UserTaskController {
    const service: UserTaskService

    constructor (service: UserTaskService)
      ensures this.service == service
    {
      this.service := service;
    }

    /** GetTaskById: 400 for Guid.Empty, 404 for an unknown id, otherwise 200
        with the stored record. */
    function GetTaskById(id: Guid): (r: Response<UserTask>)
      reads service.repository.context
      ensures r.statusCode == Status400BadRequest <==> id == EmptyGuid
      ensures r.statusCode == Status404NotFound <==> id != EmptyGuid && !HasId(service.Tasks(), id)
      ensures r.statusCode == Status200OK <==> id != EmptyGuid && HasId(service.Tasks(), id)
      ensures r.statusCode == Status200OK ==> r.body.Some? && r.body.value in service.Tasks() && r.body.value.id == id
    {
      match service.GetUserTaskById(id)
      case Success(t) => Response(Status200OK, Some(t))
      case Failure(e) => Response(LookupErrorStatus(e), None)
    }

    /** GetPagedTasks: a query string that does not bind is a bad request;
        otherwise 200 with the page for the clamped parameters. */
    method GetPagedTasks(page: Int32, pageSize: Int32, status: Option<TaskProgress>, queryBound: bool)
      returns (r: Response<PagedResult>)
      ensures !queryBound ==> r == Response(Status400BadRequest, None)
      ensures queryBound ==>
        r == Response(Status200OK, Some(Paged(service.Tasks(), ClampPage(page), ClampPageSize(pageSize), status)))
    {
      var queryParams := new TaskQueryParams(page, pageSize, status);
      if !queryBound {
        return Response(Status400BadRequest, None);
      }
      var result := service.GetPagedUserTasks(queryParams);
      r := Response(Status200OK, Some(result));
    }

    /** CreateTask: an input that fails validation is a bad request and writes
        nothing; a valid one is created (201 with the record), unless its key
        is taken, which is a server error. */
    method CreateTask(input: UserTaskInput, now: DateTime, newId: Guid) returns (r: Response<UserTask>)
      requires service.repository.context.Valid()
      requires newId != EmptyGuid && !HasId(service.Tasks(), newId)
      modifies service.repository.context
      ensures service.repository.context.Valid()
      ensures !Validation.IsValidInput(input, now) ==>
        r == Response(Status400BadRequest, None) && unchanged(service.repository.context)
      ensures Validation.IsValidInput(input, now) && HasId(old(service.Tasks()), KeyFor(input, newId)) ==>
        r == Response(Status500InternalServerError, None) && unchanged(service.repository.context)
      ensures Validation.IsValidInput(input, now) && !HasId(old(service.Tasks()), KeyFor(input, newId)) ==>
        && r == Response(Status201Created, Some(FromInput(input, KeyFor(input, newId))))
        && service.Tasks() == old(service.Tasks()) + [r.body.value]
    {
      if !Validation.IsValidInput(input, now) {
        return Response(Status400BadRequest, None);
      }
      ValidInputPassesCreateCheck(input, now);
      var created := service.CreateUserTask(input, now, newId);
      r := match created
        case Success(t) => Response(Status201Created, Some(t))
        case Failure(e) => Response(CreateErrorStatus(e), None);
    }

    /** UpdateTask: invalid input, or a route id that differs from the body's,
        is a bad request before the service is called; then Guid.Empty is a bad
        request, an unknown id not found, and a known one is updated (204). */
    method UpdateTask(id: Guid, input: UserTaskInput, now: DateTime) returns (statusCode: int)
      requires service.repository.context.Valid()
      modifies service.repository.context
      ensures service.repository.context.Valid()
      ensures !Validation.IsValidInput(input, now) || id != input.id ==>
        statusCode == Status400BadRequest && unchanged(service.repository.context)
      ensures Validation.IsValidInput(input, now) && id == input.id && id == EmptyGuid ==>
        statusCode == Status400BadRequest && unchanged(service.repository.context)
      ensures Validation.IsValidInput(input, now) && id == input.id && id != EmptyGuid && !HasId(old(service.Tasks()), id) ==>
        statusCode == Status404NotFound && unchanged(service.repository.context)
      ensures Validation.IsValidInput(input, now) && id == input.id && id != EmptyGuid && HasId(old(service.Tasks()), id) ==>
        && statusCode == Status204NoContent
        && |service.Tasks()| == |old(service.Tasks())|
        && forall j :: 0 <= j < |service.Tasks()| ==>
             service.Tasks()[j] == if old(service.Tasks())[j].id == id
                                   then ApplyInput(old(service.Tasks())[j], WithCompletionDate(input, now))
                                   else old(service.Tasks())[j]
    {
      if !Validation.IsValidInput(input, now) {
        return Status400BadRequest;
      }
      if id != input.id {
        return Status400BadRequest;
      }
      Validation.ValidInputCharacterized(input, now);
      var result := service.UpdateUserTask(input, now);
      statusCode := match result
        case Success(ok) => BoolResultStatus(ok)
        case Failure(e) => LookupErrorStatus(e);
    }

    /** DeleteTask: 400 for Guid.Empty, 404 for an unknown id, 409 for a task
        in progress (all without a write), otherwise the record is removed (204). */
    method DeleteTask(id: Guid) returns (statusCode: int)
      requires service.repository.context.Valid()
      modifies service.repository.context
      ensures service.repository.context.Valid()
      ensures statusCode != Status204NoContent ==> unchanged(service.repository.context)
      ensures statusCode == Status400BadRequest <==> id == EmptyGuid
      ensures statusCode == Status404NotFound <==> id != EmptyGuid && !HasId(old(service.Tasks()), id)
      ensures statusCode == Status409Conflict <==>
        id != EmptyGuid && HasId(old(service.Tasks()), id) && old(service.Tasks())[IndexOf(old(service.Tasks()), id).value].status == InProgress
      ensures statusCode == Status204NoContent ==> service.Tasks() == WithoutId(old(service.Tasks()), id)
      ensures statusCode in {Status204NoContent, Status400BadRequest, Status404NotFound, Status409Conflict}
    {
      var result := service.DeleteUserTask(id);
      statusCode := match result
        case Success(ok) => BoolResultStatus(ok)
        case Failure(e) => DeleteErrorStatus(e);
    }

    function GetTasksByStatus(status: TaskProgress): (r: Response<seq<UserTask>>)
      reads service.repository.context
      ensures r.statusCode == Status200OK && r.body.Some?
      ensures forall t :: t in r.body.value <==> t in service.Tasks() && t.status == status
    {
      Response(Status200OK, Some(FilterByStatus(service.GetAllUserTasks(), status)))
    }

    function GetOverdueTasks(now: DateTime): (r: Response<seq<UserTask>>)
      reads service.repository.context
      ensures r.statusCode == Status200OK && r.body.Some?
      ensures forall t :: t in r.body.value <==> t in service.Tasks() && InOverdueView(t, now)
    {
      Response(Status200OK, Some(OverdueView(service.GetAllUserTasks(), now)))
    }

    function GetUpcomingDeadlines(now: DateTime, hours: Int32 := DefaultUpcomingHours): (r: Response<seq<UserTask>>)
      reads service.repository.context
      ensures r.statusCode == Status200OK <==> Deadline(now, hours).Some?
      ensures r.statusCode == Status200OK ==>
        && r.body.Some?
        && forall t :: t in r.body.value <==> t in service.Tasks() && DueWithin(t, now, Deadline(now, hours).value)
    {
      UpcomingDeadlines(service.GetAllUserTasks(), now, hours)
    }
  }
}
