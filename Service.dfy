/** UserTaskService: the guards in front of the repository, the clamping of the
    paging parameters and the due-date fix-up on completion. The clock is the
    parameter `now`. */
module Service {
  import opened Domain
  import opened Data
  import opened Repository
  import Validation

  const DefaultPageSize: Int32 := 10
  const MaxPageSize: Int32 := 100

  const TitleEmptyMessage := "Title cannot be empty"
  const PastDueMessage := "Due date cannot be in the past"
  const InvalidIdMessage := "Invalid task ID"
  const InProgressMessage := "Cannot delete task in progress"

  /** The query-string parameters of the paged listing, which the service
      corrects in place. */
  class TaskQueryParams {
    var page: Int32
    var pageSize: Int32
    var status: Option<TaskProgress>

    constructor (page: Int32, pageSize: Int32, status: Option<TaskProgress>)
      ensures this.page == page && this.pageSize == pageSize && this.status == status
    {
      this.page := page;
      this.pageSize := pageSize;
      this.status := status;
    }
  }

  /** `if (Page < 1) Page = 1`: the page is at least 1, and a valid one is kept. */
  function ClampPage(page: Int32): (r: Int32)
    ensures r >= 1
    ensures page >= 1 ==> r == page
    ensures page < 1 ==> r == 1
  {
    if page < 1 then 1 else page
  }

  /** The two pageSize corrections, applied in order: the size ends in 1..100,
      a size already in range is kept, a non-positive one becomes the default 10
      and a larger one the maximum 100. */
  function ClampPageSize(pageSize: Int32): (r: Int32)
    ensures 1 <= r <= MaxPageSize
    ensures 1 <= pageSize <= MaxPageSize ==> r == pageSize
    ensures pageSize < 1 ==> r == DefaultPageSize
    ensures pageSize > MaxPageSize ==> r == MaxPageSize
  {
    var size := if pageSize < 1 then DefaultPageSize else pageSize;
    if size > MaxPageSize then MaxPageSize else size
  }

  /** The guards of CreateUserTaskAsync, in order: a blank title, then a due
      date strictly before now. A missing due date, or one at or after now,
      passes. */
  function CreateCheck(input: UserTaskInput, now: DateTime): (r: Option<Error>)
    ensures r.None? <==> !IsNullOrWhiteSpace(input.title) && (input.dueDate.Some? ==> input.dueDate.value >= now)
    ensures IsNullOrWhiteSpace(input.title) ==> r == Some(ArgumentError(TitleEmptyMessage))
    ensures r.Some? && !IsNullOrWhiteSpace(input.title) ==> r == Some(ArgumentError(PastDueMessage))
  {
    if IsNullOrWhiteSpace(input.title) then Some(ArgumentError(TitleEmptyMessage))
    else if input.dueDate.Some? && input.dueDate.value < now then Some(ArgumentError(PastDueMessage))
    else None
  }

  /** An input that passed model validation at the same instant also passes
      the service's own create guards: the service re-checks what the
      controller's ModelState already rejected. */
  lemma ValidInputPassesCreateCheck(input: UserTaskInput, now: DateTime)
    requires Validation.IsValidInput(input, now)
    ensures CreateCheck(input, now).None?
  {
    Validation.ValidInputCharacterized(input, now);
  }

  /** The fix-up in UpdateUserTaskAsync: a task updated to Completed without a
      due date gets `now` as its due date; every other input passes through. */
  function WithCompletionDate(input: UserTaskInput, now: DateTime): (r: UserTaskInput)
    ensures r.id == input.id && r.title == input.title && r.description == input.description
    ensures r.status == input.status
    ensures r.status == Completed ==> r.dueDate.Some?
    ensures input.dueDate.Some? ==> r.dueDate == input.dueDate
    ensures input.status != Completed ==> r.dueDate == input.dueDate
    ensures r.dueDate != input.dueDate ==> r.dueDate == Some(now)
  {
    if input.status == Completed && input.dueDate.None? then input.(dueDate := Some(now)) else input
  }

  class UserTaskService {
    const repository: UserTaskRepository

    constructor (repository: UserTaskRepository)
      ensures this.repository == repository
    {
      this.repository := repository;
    }

    ghost function Tasks(): seq<UserTask>
      reads repository.context
    {
      repository.context.userTasks
    }

    /** CreateUserTaskAsync: a rejected input leaves the store as it was;
        an accepted one is added as one new record. */
    method CreateUserTask(input: UserTaskInput, now: DateTime, newId: Guid) returns (r: Result<UserTask, Error>)
      requires repository.context.Valid()
      requires newId != EmptyGuid && !HasId(Tasks(), newId)
      modifies repository.context
      ensures repository.context.Valid()
      ensures CreateCheck(input, now).Some? ==>
        r == Failure(CreateCheck(input, now).value) && unchanged(repository.context)
      ensures CreateCheck(input, now).None? && HasId(old(Tasks()), KeyFor(input, newId)) ==>
        r == Failure(StoreFailure) && unchanged(repository.context)
      ensures CreateCheck(input, now).None? && !HasId(old(Tasks()), KeyFor(input, newId)) ==>
        && r == Success(FromInput(input, KeyFor(input, newId)))
        && Tasks() == old(Tasks()) + [r.value]
        && repository.context.saves == old(repository.context.saves) + 1
    {
      if IsNullOrWhiteSpace(input.title) {
        return Failure(ArgumentError(TitleEmptyMessage));
      }
      if input.dueDate.Some? && input.dueDate.value < now {
        return Failure(ArgumentError(PastDueMessage));
      }
      r := repository.CreateUserTask(input, newId);
    }

    /** GetPagedUserTasksAsync: corrects the parameters in place, then queries
        with the corrected values. */
    method GetPagedUserTasks(queryParams: TaskQueryParams) returns (r: PagedResult)
      modifies queryParams
      ensures queryParams.page == ClampPage(old(queryParams.page))
      ensures queryParams.pageSize == ClampPageSize(old(queryParams.pageSize))
      ensures queryParams.status == old(queryParams.status)
      ensures r == Paged(Tasks(), queryParams.page, queryParams.pageSize, queryParams.status)
    {
      if queryParams.page < 1 {
        queryParams.page := 1;
      }
      if queryParams.pageSize < 1 {
        queryParams.pageSize := DefaultPageSize;
      }
      if queryParams.pageSize > MaxPageSize {
        queryParams.pageSize := MaxPageSize;
      }
      r := repository.GetPagedUserTasks(queryParams.page, queryParams.pageSize, queryParams.status);
    }

    function GetAllUserTasks(): (r: seq<UserTask>)
      reads repository.context
      ensures r == Tasks()
    {
      repository.GetAllUserTasks()
    }

    /** GetUserTaskByIdAsync: Guid.Empty is rejected before the store is
        consulted, a missing id is not found, otherwise the stored record. */
    function GetUserTaskById(id: Guid): (r: Result<UserTask, Error>)
      reads repository.context
      ensures id == EmptyGuid ==> r == Failure(ArgumentError(InvalidIdMessage))
      ensures id != EmptyGuid && !HasId(Tasks(), id) ==> r == Failure(KeyNotFound(id))
      ensures id != EmptyGuid && HasId(Tasks(), id) ==> r.Success? && r.value in Tasks() && r.value.id == id
    {
      if id == EmptyGuid then Failure(ArgumentError(InvalidIdMessage))
      else match repository.GetUserTaskById(id)
        case None => Failure(KeyNotFound(id))
        case Some(t) => Success(t)
    }

    /** UpdateUserTaskAsync: each error leaves the store as it was; otherwise the
        record with the input's id takes the (fixed-up) input's four fields. */
    method UpdateUserTask(input: UserTaskInput, now: DateTime) returns (r: Result<bool, Error>)
      requires repository.context.Valid()
      modifies repository.context
      ensures repository.context.Valid()
      ensures input.id == EmptyGuid ==>
        r == Failure(ArgumentError(InvalidIdMessage)) && unchanged(repository.context)
      ensures input.id != EmptyGuid && IsNullOrWhiteSpace(input.title) ==>
        r == Failure(ArgumentError(TitleEmptyMessage)) && unchanged(repository.context)
      ensures input.id != EmptyGuid && !IsNullOrWhiteSpace(input.title) && !HasId(old(Tasks()), input.id) ==>
        r == Failure(KeyNotFound(input.id)) && unchanged(repository.context)
      ensures input.id != EmptyGuid && !IsNullOrWhiteSpace(input.title) && HasId(old(Tasks()), input.id) ==>
        && r == Success(true)
        && repository.context.saves == old(repository.context.saves) + 1
        && |Tasks()| == |old(Tasks())|
        && forall j :: 0 <= j < |Tasks()| ==>
             Tasks()[j] == if old(Tasks())[j].id == input.id
                           then ApplyInput(old(Tasks())[j], WithCompletionDate(input, now))
                           else old(Tasks())[j]
    {
      if input.id == EmptyGuid {
        return Failure(ArgumentError(InvalidIdMessage));
      }
      if IsNullOrWhiteSpace(input.title) {
        return Failure(ArgumentError(TitleEmptyMessage));
      }
      var existing := repository.GetUserTaskById(input.id);
      if existing.None? {
        return Failure(KeyNotFound(input.id));
      }
      var fixedUp := WithCompletionDate(input, now);
      var ok := repository.UpdateUserTask(fixedUp);
      r := Success(ok);
    }

    /** DeleteUserTaskAsync: Guid.Empty, a missing id and a task in progress are
        refused with the store unchanged; otherwise the record is removed. */
    method DeleteUserTask(id: Guid) returns (r: Result<bool, Error>)
      requires repository.context.Valid()
      modifies repository.context
      ensures repository.context.Valid()
      ensures id == EmptyGuid ==>
        r == Failure(ArgumentError(InvalidIdMessage)) && unchanged(repository.context)
      ensures id != EmptyGuid && !HasId(old(Tasks()), id) ==>
        r == Failure(KeyNotFound(id)) && unchanged(repository.context)
      ensures id != EmptyGuid && HasId(old(Tasks()), id) && old(Tasks())[IndexOf(old(Tasks()), id).value].status == InProgress ==>
        r == Failure(InvalidOperation(InProgressMessage)) && unchanged(repository.context)
      ensures id != EmptyGuid && HasId(old(Tasks()), id) && old(Tasks())[IndexOf(old(Tasks()), id).value].status != InProgress ==>
        && r == Success(true)
        && Tasks() == WithoutId(old(Tasks()), id)
        && |Tasks()| == |old(Tasks())| - 1
        && repository.context.saves == old(repository.context.saves) + 1
    {
      if id == EmptyGuid {
        return Failure(ArgumentError(InvalidIdMessage));
      }
      var existing := repository.GetUserTaskById(id);
      if existing.None? {
        return Failure(KeyNotFound(id));
      }
      IndexOfUnique(Tasks(), IndexOf(Tasks(), id).value);
      if existing.value.status == InProgress {
        return Failure(InvalidOperation(InProgressMessage));
      }
      var ok := repository.DeleteUserTask(id);
      r := Success(ok);
    }
  }
}
