/** The task table as the in-memory store that stands in for AppDbContext.UserTasks:
    the records in enumeration order, keyed by a unique id, and a count of the
    SaveChangesAsync calls that wrote them. */
module Data {
  import opened Domain

  ghost predicate UniqueIds(tasks: seq<UserTask>)
  {
    forall i, j :: 0 <= i < j < |tasks| ==> tasks[i].id != tasks[j].id
  }

  predicate HasId(tasks: seq<UserTask>, id: Guid)
  {
    exists i :: 0 <= i < |tasks| && tasks[i].id == id
  }

  /** The position of the first record with the given id (FindAsync / FirstOrDefaultAsync). */
  function IndexOf(tasks: seq<UserTask>, id: Guid): (r: Option<nat>)
    ensures r.None? <==> !HasId(tasks, id)
    ensures r.Some? ==> r.value < |tasks| && tasks[r.value].id == id
    ensures r.Some? ==> forall i :: 0 <= i < r.value ==> tasks[i].id != id
  {
    if tasks == [] then None
    else if tasks[0].id == id then Some(0)
    else match IndexOf(tasks[1..], id)
      case None => None
      case Some(i) => Some(i + 1)
  }

  /** With unique ids, the id of the record at position i leads back to i. */
  lemma IndexOfUnique(tasks: seq<UserTask>, i: nat)
    requires UniqueIds(tasks) && i < |tasks|
    ensures IndexOf(tasks, tasks[i].id) == Some(i)
  {
  }

  /** `tasks` with every record carrying `id` removed, order kept. */
  function WithoutId(tasks: seq<UserTask>, id: Guid): (r: seq<UserTask>)
    ensures |r| <= |tasks|
    ensures forall t :: t in r <==> t in tasks && t.id != id
    ensures !HasId(r, id)
  {
    if tasks == [] then []
    else (if tasks[0].id == id then [] else [tasks[0]]) + WithoutId(tasks[1..], id)
  }

  /** Removing the one record at position i of a store with unique ids is
      removing every record with its id. */
  lemma {:induction false} RemoveAtIsWithoutId(tasks: seq<UserTask>, i: nat)
    requires UniqueIds(tasks) && i < |tasks|
    ensures tasks[..i] + tasks[i + 1..] == WithoutId(tasks, tasks[i].id)
    ensures |WithoutId(tasks, tasks[i].id)| == |tasks| - 1
  {
    var id := tasks[i].id;
    if i == 0 {
      NoIdIsWithoutId(tasks[1..], id);
    } else {
      UniqueIdsTail(tasks);
      RemoveAtIsWithoutId(tasks[1..], i - 1);
      assert tasks[1..][i - 1] == tasks[i];
      assert tasks[0].id != id;
      RemoveAtOfTail(tasks, i);
    }
  }

  lemma UniqueIdsTail(tasks: seq<UserTask>)
    requires UniqueIds(tasks) && tasks != []
    ensures UniqueIds(tasks[1..])
  {
    forall a, b | 0 <= a < b < |tasks| - 1 ensures tasks[1..][a].id != tasks[1..][b].id {
      assert tasks[1..][a] == tasks[a + 1] && tasks[1..][b] == tasks[b + 1];
    }
  }

  lemma RemoveAtOfTail(tasks: seq<UserTask>, i: nat)
    requires 0 < i < |tasks|
    ensures tasks[..i] + tasks[i + 1..] == [tasks[0]] + (tasks[1..][..i - 1] + tasks[1..][i..])
  {
    assert tasks[..i] == [tasks[0]] + tasks[1..][..i - 1];
    assert tasks[i + 1..] == tasks[1..][i..];
  }

  lemma {:induction false} NoIdIsWithoutId(tasks: seq<UserTask>, id: Guid)
    requires !HasId(tasks, id)
    ensures WithoutId(tasks, id) == tasks
  {
    if tasks != [] {
      assert !HasId(tasks[1..], id) by {
        forall k | 0 <= k < |tasks| - 1 ensures tasks[1..][k].id != id {
          assert tasks[1..][k] == tasks[k + 1];
        }
      }
      NoIdIsWithoutId(tasks[1..], id);
      assert tasks == [tasks[0]] + tasks[1..];
    }
  }

  /** Dropping one position keeps the ids unique. */
  lemma RemoveAtKeepsUniqueIds(tasks: seq<UserTask>, i: nat)
    requires UniqueIds(tasks) && i < |tasks|
    ensures UniqueIds(tasks[..i] + tasks[i + 1..])
  {
    var r := tasks[..i] + tasks[i + 1..];
    forall a, b | 0 <= a < b < |r| ensures r[a].id != r[b].id {
      var a' := if a < i then a else a + 1;
      var b' := if b < i then b else b + 1;
      assert r[a] == tasks[a'] && r[b] == tasks[b'];
    }
  }

  class AppDbContext {
    var userTasks: seq<UserTask>
    var saves: nat

    /** Keys are unique and never Guid.Empty (the store generates a key for an
        entity that arrives without one). */
    ghost predicate Valid()
      reads this
    {
      && UniqueIds(userTasks)
      && !HasId(userTasks, EmptyGuid)
    }

    constructor ()
      ensures Valid() && userTasks == [] && saves == 0
    {
      userTasks := [];
      saves := 0;
    }

    /** SaveChangesAsync: commits the pending changes as one batch. */
    method SaveChanges()
      modifies this`saves
      ensures saves == old(saves) + 1
    {
      saves := saves + 1;
    }
  }
}
