/** UserTaskRepository over the in-memory store: create, full replace, remove,
    point lookup, the whole list, and the filtered, ordered, paged query. */
module Repository {
  import opened Domain
  import opened Seqs
  import opened Data

  datatype PagedResult = PagedResult(items: seq<UserTask>, totalCount: int, page: Int32, pageSize: Int32)

  /** The ordering key `t.DueDate ?? DateTime.MaxValue`. */
  function DueKey(t: UserTask): DateTime
  {
    match t.dueDate
    case Some(d) => d
    case None => MaxValue
  }

  ghost predicate SortedByDue(s: seq<UserTask>)
  {
    forall i, j :: 0 <= i < j < |s| ==> DueKey(s[i]) <= DueKey(s[j])
  }

  /** Inserts t in front of the first element whose key is not smaller. */
  function InsertByDue(t: UserTask, s: seq<UserTask>): (r: seq<UserTask>)
    ensures multiset(r) == multiset(s) + multiset{t}
  {
    if s == [] || DueKey(t) <= DueKey(s[0]) then [t] + s
    else
      assert s == [s[0]] + s[1..];
      [s[0]] + InsertByDue(t, s[1..])
  }

  /** Inserting into a sorted sequence keeps it sorted. */
  lemma {:induction false} InsertKeepsSorted(t: UserTask, s: seq<UserTask>)
    requires SortedByDue(s)
    ensures SortedByDue(InsertByDue(t, s))
  {
    if s == [] || DueKey(t) <= DueKey(s[0]) {
      forall x | x in s ensures DueKey(t) <= DueKey(x) {
        var k :| 0 <= k < |s| && s[k] == x;
      }
      ConsSorted(t, s);
    } else {
      var rest := InsertByDue(t, s[1..]);
      InsertKeepsSorted(t, s[1..]);
      forall x | x in rest ensures DueKey(s[0]) <= DueKey(x) {
        assert multiset(rest)[x] > 0;
        if x != t {
          assert x in multiset(s[1..]);
          var k :| 0 <= k < |s[1..]| && s[1..][k] == x;
          assert s[k + 1] == x;
        }
      }
      ConsSorted(s[0], rest);
    }
  }

  lemma ConsSorted(a: UserTask, rest: seq<UserTask>)
    requires SortedByDue(rest)
    requires forall x :: x in rest ==> DueKey(a) <= DueKey(x)
    ensures SortedByDue([a] + rest)
  {
    forall i, j | 0 <= i < j < |rest| + 1 ensures DueKey(([a] + rest)[i]) <= DueKey(([a] + rest)[j]) {
      assert ([a] + rest)[j] == rest[j - 1];
      if i > 0 {
        assert ([a] + rest)[i] == rest[i - 1];
      }
    }
  }

  /** `OrderBy(t => t.DueDate ?? DateTime.MaxValue)`: a reordering of s by key.
      Equal keys keep their order here; the database does not promise one. */
  function SortByDue(s: seq<UserTask>): (r: seq<UserTask>)
    ensures SortedByDue(r)
    ensures multiset(r) == multiset(s)
    ensures |r| == |s|
  {
    if s == [] then []
    else
      assert s == [s[0]] + s[1..];
      InsertKeepsSorted(s[0], SortByDue(s[1..]));
      InsertByDue(s[0], SortByDue(s[1..]))
  }

  /** Enumerable.Skip: a count of zero or less skips nothing. */
  function Skip(s: seq<UserTask>, n: int): (r: seq<UserTask>)
    ensures n <= 0 ==> r == s
    ensures 0 < n <= |s| ==> r == s[n..]
    ensures n > |s| ==> r == []
  {
    if n <= 0 then s else if n >= |s| then [] else s[n..]
  }

  /** Enumerable.Take: a count of zero or less takes nothing. */
  function Take(s: seq<UserTask>, n: int): (r: seq<UserTask>)
    ensures n <= 0 ==> r == []
    ensures 0 < n <= |s| ==> r == s[..n]
    ensures n > |s| ==> r == s
  {
    if n <= 0 then [] else if n >= |s| then s else s[..n]
  }

  function NonNegative(n: int): nat
  {
    if n < 0 then 0 else n
  }

  /** `Skip(offset).Take(size)`: the window of s starting at the offset. */
  function Window(s: seq<UserTask>, offset: int, size: int): (r: seq<UserTask>)
    ensures |r| <= NonNegative(size)
    ensures NonNegative(offset) + |r| <= |s| || r == []
    ensures |r| == if NonNegative(offset) >= |s| then 0
                   else if NonNegative(size) <= |s| - NonNegative(offset) then NonNegative(size)
                   else |s| - NonNegative(offset)
    ensures forall k :: 0 <= k < |r| ==> r[k] == s[NonNegative(offset) + k]
  {
    Take(Skip(s, offset), size)
  }

  predicate MatchesStatus(t: UserTask, status: Option<TaskProgress>)
  {
    status.None? || t.status == status.value
  }

  function StatusFilter(status: Option<TaskProgress>): UserTask -> bool
  {
    t => MatchesStatus(t, status)
  }

  /** The number of records to skip, `(page - 1) * pageSize`, computed exactly. */
  function PageOffset(page: Int32, pageSize: Int32): (offset: int)
    ensures page >= 1 && pageSize >= 0 ==> offset >= 0
  {
    (page - 1) * pageSize
  }

  /** GetPagedUserTasksAsync on a snapshot of the store. */
  function Paged(tasks: seq<UserTask>, page: Int32, pageSize: Int32, status: Option<TaskProgress>): (r: PagedResult)
    ensures r.totalCount == |Where(tasks, StatusFilter(status))|
    ensures r.page == page && r.pageSize == pageSize
    ensures |r.items| <= r.totalCount
    ensures |r.items| <= NonNegative(pageSize)
    ensures forall t :: t in r.items ==> t in tasks && MatchesStatus(t, status)
    ensures SortedByDue(r.items)
  {
    var filtered := Where(tasks, StatusFilter(status));
    var ordered := SortByDue(filtered);
    var items := Window(ordered, PageOffset(page, pageSize), pageSize);
    WindowOfSorted(ordered, PageOffset(page, pageSize), pageSize);
    SortedKeepsElements(filtered);
    PagedResult(items, |filtered|, page, pageSize)
  }

  lemma WindowOfSorted(s: seq<UserTask>, offset: int, size: int)
    requires SortedByDue(s)
    ensures SortedByDue(Window(s, offset, size))
    ensures forall t :: t in Window(s, offset, size) ==> t in s
  {
    var r := Window(s, offset, size);
    forall t | t in r ensures t in s {
      var k :| 0 <= k < |r| && r[k] == t;
    }
  }

  lemma SortedKeepsElements(s: seq<UserTask>)
    ensures forall t :: t in SortByDue(s) <==> t in s
  {
    forall t ensures t in SortByDue(s) <==> t in s {
      assert t in SortByDue(s) <==> multiset(SortByDue(s))[t] > 0;
    }
  }

  /** Null due dates sort last: in a page, after a record without a due date
      come only records without one or due at DateTime.MaxValue. */
  lemma NoDueDateSortsLast(items: seq<UserTask>, i: nat, j: nat)
    requires SortedByDue(items)
    requires i < j < |items| && items[i].dueDate.None?
    ensures items[j].dueDate.None? || items[j].dueDate == Some(MaxValue)
  {
    assert DueKey(items[i]) <= DueKey(items[j]);
  }

  lemma WindowAt(s: seq<UserTask>, offset: int, size: int, k: nat)
    requires 0 <= offset && k < size && offset + k < |s|
    ensures k < |Window(s, offset, size)| && Window(s, offset, size)[k] == s[offset + k]
  {
  }

  /** Paging walks the ordered, filtered records in windows: slot k of page p
      holds the record at position (p - 1) * pageSize + k. */
  lemma PageHoldsPosition(tasks: seq<UserTask>, status: Option<TaskProgress>, page: Int32, pageSize: Int32, k: nat)
    requires page >= 1 && k < pageSize
    requires PageOffset(page, pageSize) + k < |Where(tasks, StatusFilter(status))|
    ensures var items := Paged(tasks, page, pageSize, status).items;
      k < |items| && items[k] == SortByDue(Where(tasks, StatusFilter(status)))[PageOffset(page, pageSize) + k]
  {
    var ordered := SortByDue(Where(tasks, StatusFilter(status)));
    var offset := PageOffset(page, pageSize);
    WindowAt(ordered, offset, pageSize, k);
    assert Paged(tasks, page, pageSize, status).items == Window(ordered, offset, pageSize);
  }

  /** Past the last record every page is empty. */
  lemma PastLastPageIsEmpty(tasks: seq<UserTask>, page: Int32, pageSize: Int32, status: Option<TaskProgress>)
    requires page >= 1 && pageSize >= 1
    requires PageOffset(page, pageSize) >= |Where(tasks, StatusFilter(status))|
    ensures Paged(tasks, page, pageSize, status).items == []
  {
  }

  /** C#'s unchecked `int` arithmetic: the result modulo 2^32, read as signed. */
  function WrapInt32(x: int): (r: Int32)
    ensures (r - x) % 0x1_0000_0000 == 0
  {
    var m := x % 0x1_0000_0000;
    if m >= 0x8000_0000 then m - 0x1_0000_0000 else m
  }

  /** The skip count as the source computes it, in 32-bit arithmetic. */
  function PageOffsetAsWritten(page: Int32, pageSize: Int32): (offset: Int32)
    ensures page >= 1 && -0x8000_0000 <= PageOffset(page, pageSize) < 0x8000_0000 ==> offset == PageOffset(page, pageSize)
  {
    WrapInt32(WrapInt32(page - 1) * pageSize)
  }

  /** The page's rows as the source's query computes them, with the 32-bit skip
      count; wherever that count does not wrap they are the rows of `Paged`. */
  function PagedItemsAsWritten(tasks: seq<UserTask>, page: Int32, pageSize: Int32, status: Option<TaskProgress>): (r: seq<UserTask>)
    ensures |r| <= NonNegative(pageSize)
    ensures PageOffsetAsWritten(page, pageSize) == PageOffset(page, pageSize) ==> r == Paged(tasks, page, pageSize, status).items
  {
    Window(SortByDue(Where(tasks, StatusFilter(status))), PageOffsetAsWritten(page, pageSize), pageSize)
  }

  /** Page int.MaxValue at the largest page size the service allows: the 32-bit
      skip count wraps to -200, so the query returns the first page, where the
      exact count gives an empty page. */
  lemma LastPageWrapsToFirstPage(t: UserTask)
    ensures PageOffsetAsWritten(0x7FFF_FFFF, 100) == -200
    ensures PagedItemsAsWritten([t], 0x7FFF_FFFF, 100, None) == [t]
    ensures Paged([t], 0x7FFF_FFFF, 100, None).items == []
  {
    assert (0x7FFF_FFFE * 100) % 0x1_0000_0000 == 0x1_0000_0000 - 200;
    assert Where([t], StatusFilter(None)) == [t];
    assert SortByDue([t]) == [t];
  }

  /** The entity AutoMapper builds from the input, field for field. */
  function FromInput(input: UserTaskInput, id: Guid): (r: UserTask)
    ensures r.id == id
    ensures forall t: UserTask :: t.id == id ==> ApplyInput(t, input) == r
  {
    UserTask(id, input.title, input.description, input.dueDate, input.status)
  }

  /** The four assignments of UpdateUserTaskAsync; the id stays. */
  function ApplyInput(t: UserTask, input: UserTaskInput): (r: UserTask)
    ensures r.id == t.id
    ensures r.title == input.title && r.description == input.description
    ensures r.dueDate == input.dueDate && r.status == input.status
  {
    t.(title := input.title, description := input.description, dueDate := input.dueDate, status := input.status)
  }

  /** The key the created row gets: the input's, or a generated one when the
      input carries Guid.Empty. */
  function KeyFor(input: UserTaskInput, newId: Guid): (id: Guid)
    ensures input.id != EmptyGuid ==> id == input.id
    ensures id == EmptyGuid <==> input.id == EmptyGuid && newId == EmptyGuid
  {
    if input.id == EmptyGuid then newId else input.id
  }

  class UserTaskRepository {
    const context: AppDbContext

    constructor (context: AppDbContext)
      ensures this.context == context
    {
      this.context := context;
    }

    /** Adds one record mapped from the input and saves. A key already in the
        table makes the save fail and nothing is written. `newId` is the key
        the store generates for an input without one. */
    method CreateUserTask(input: UserTaskInput, newId: Guid) returns (r: Result<UserTask, Error>)
      requires context.Valid()
      requires newId != EmptyGuid && !HasId(context.userTasks, newId)
      modifies context
      ensures context.Valid()
      ensures HasId(old(context.userTasks), KeyFor(input, newId)) ==>
        r == Failure(StoreFailure) && unchanged(context)
      ensures !HasId(old(context.userTasks), KeyFor(input, newId)) ==>
        && r == Success(FromInput(input, KeyFor(input, newId)))
        && context.userTasks == old(context.userTasks) + [r.value]
        && context.saves == old(context.saves) + 1
    {
      var id := KeyFor(input, newId);
      if IndexOf(context.userTasks, id).Some? {
        return Failure(StoreFailure);
      }
      var task := FromInput(input, id);
      context.userTasks := context.userTasks + [task];
      context.SaveChanges();
      r := Success(task);
    }

    function GetPagedUserTasks(page: Int32, pageSize: Int32, status: Option<TaskProgress>): (r: PagedResult)
      reads context
      ensures r == Paged(context.userTasks, page, pageSize, status)
    {
      Paged(context.userTasks, page, pageSize, status)
    }

    /** Every record, in store order. */
    function GetAllUserTasks(): (r: seq<UserTask>)
      reads context
      ensures r == context.userTasks
    {
      context.userTasks
    }

    /** FindAsync: the record with that id, or null. */
    function GetUserTaskById(id: Guid): (r: Option<UserTask>)
      reads context
      ensures r.None? <==> !HasId(context.userTasks, id)
      ensures r.Some? ==> r.value in context.userTasks && r.value.id == id
    {
      match IndexOf(context.userTasks, id)
      case None => None
      case Some(i) => Some(context.userTasks[i])
    }

    /** Replaces title, description, due date and status of the record with the
        input's id; false, and no write, when there is none. */
    method UpdateUserTask(input: UserTaskInput) returns (ok: bool)
      requires context.Valid()
      modifies context
      ensures context.Valid()
      ensures ok <==> HasId(old(context.userTasks), input.id)
      ensures !ok ==> unchanged(context)
      ensures ok ==> context.saves == old(context.saves) + 1
      ensures |context.userTasks| == |old(context.userTasks)|
      ensures forall j :: 0 <= j < |context.userTasks| ==>
        context.userTasks[j] ==
          if old(context.userTasks[j]).id == input.id then ApplyInput(old(context.userTasks[j]), input)
          else old(context.userTasks[j])
    {
      var i := IndexOf(context.userTasks, input.id);
      if i.None? {
        return false;
      }
      var t := context.userTasks[i.value];
      context.userTasks := context.userTasks[i.value := ApplyInput(t, input)];
      context.SaveChanges();
      ok := true;
    }

    /** Removes the record with that id; false, and no write, when there is none. */
    method DeleteUserTask(id: Guid) returns (ok: bool)
      requires context.Valid()
      modifies context
      ensures context.Valid()
      ensures ok <==> HasId(old(context.userTasks), id)
      ensures !ok ==> unchanged(context)
      ensures ok ==>
        && context.userTasks == WithoutId(old(context.userTasks), id)
        && |context.userTasks| == |old(context.userTasks)| - 1
        && context.saves == old(context.saves) + 1
    {
      var i := IndexOf(context.userTasks, id);
      if i.None? {
        return false;
      }
      RemoveAtIsWithoutId(context.userTasks, i.value);
      RemoveAtKeepsUniqueIds(context.userTasks, i.value);
      context.userTasks := context.userTasks[..i.value] + context.userTasks[i.value + 1..];
      context.SaveChanges();
      ok := true;
    }
  }
}
