/** The overdue-task background service: one sweep over the store with a single
    captured `now`, the two configuration values the service reads at start-up,
    and the wait it chooses after each round of its loop. */
module Sweeper {
  import opened Domain
  import opened Data

  /** The query of the sweep: a due date strictly before now, and a status that
      is neither Completed nor Overdue. */
  predicate IsOverdueCandidate(t: UserTask, now: DateTime)
    ensures t.status == Overdue || t.status == Completed ==> !IsOverdueCandidate(t, now)
    ensures t.dueDate.None? || now <= t.dueDate.value ==> !IsOverdueCandidate(t, now)
  {
    && t.dueDate.Some?
    && t.dueDate.value < now
    && t.status != Completed
    && t.status != Overdue
  }

  /** What the sweep does to one record. */
  function MarkIfOverdue(t: UserTask, now: DateTime): (r: UserTask)
    ensures r.id == t.id && r.title == t.title && r.description == t.description && r.dueDate == t.dueDate
    ensures r.status == (if IsOverdueCandidate(t, now) then Overdue else t.status)
    ensures !IsOverdueCandidate(r, now)
  {
    if IsOverdueCandidate(t, now) then t.(status := Overdue) else t
  }

  /** The store after a sweep at `now`, position by position. */
  function SweepResult(tasks: seq<UserTask>, now: DateTime): (r: seq<UserTask>)
    ensures |r| == |tasks|
  {
    seq(|tasks|, j requires 0 <= j < |tasks| => MarkIfOverdue(tasks[j], now))
  }

  /** The positions of the records the query returns, in store order, from
      position k on. */
  function OverdueFrom(tasks: seq<UserTask>, now: DateTime, k: nat): (r: seq<nat>)
    requires k <= |tasks|
    ensures forall i :: 0 <= i < |r| ==> k <= r[i] < |tasks|
    ensures forall i, i' :: 0 <= i < i' < |r| ==> r[i] < r[i']
    ensures forall j: nat :: j in r <==> k <= j < |tasks| && IsOverdueCandidate(tasks[j], now)
    decreases |tasks| - k
  {
    if k == |tasks| then []
    else if IsOverdueCandidate(tasks[k], now) then [k] + OverdueFrom(tasks, now, k + 1)
    else OverdueFrom(tasks, now, k + 1)
  }

  function OverdueIndices(tasks: seq<UserTask>, now: DateTime): (r: seq<nat>)
    ensures forall i :: 0 <= i < |r| ==> r[i] < |tasks|
    ensures forall i, i' :: 0 <= i < i' < |r| ==> r[i] < r[i']
    ensures forall j: nat :: j in r <==> j < |tasks| && IsOverdueCandidate(tasks[j], now)
  {
    OverdueFrom(tasks, now, 0)
  }

  /** CheckAndMarkOverdueTasksAsync: every selected record becomes Overdue in
      place, every other record is left as it was, and the batch is saved once,
      and only when the query returned something. */
  method CheckAndMarkOverdueTasks(context: AppDbContext, now: DateTime)
    requires context.Valid()
    modifies context
    ensures context.userTasks == SweepResult(old(context.userTasks), now)
    ensures context.saves == old(context.saves) + (if OverdueIndices(old(context.userTasks), now) == [] then 0 else 1)
    ensures context.Valid()
  {
    var overdueTasks := OverdueIndices(context.userTasks, now);
    if overdueTasks != [] {
      var i := 0;
      while i < |overdueTasks|
        invariant 0 <= i <= |overdueTasks|
        invariant context.saves == old(context.saves)
        invariant |context.userTasks| == |old(context.userTasks)|
        invariant forall j :: 0 <= j < |context.userTasks| ==>
          context.userTasks[j] == if j in overdueTasks[..i] then MarkIfOverdue(old(context.userTasks)[j], now)
                                  else old(context.userTasks)[j]
      {
        var j := overdueTasks[i];
        assert j !in overdueTasks[..i];
        var task := context.userTasks[j];
        context.userTasks := context.userTasks[j := task.(status := Overdue)];
        assert overdueTasks[..i + 1] == overdueTasks[..i] + [j];
        i := i + 1;
      }
      assert overdueTasks[..i] == overdueTasks;
      context.SaveChanges();
    }
    assert context.userTasks == SweepResult(old(context.userTasks), now);
    SameIdsKeepValid(old(context.userTasks), context.userTasks);
  }

  /** Ids are never touched by the sweep, so a valid store stays valid. */
  lemma SameIdsKeepValid(before: seq<UserTask>, after: seq<UserTask>)
    requires |before| == |after|
    requires forall j :: 0 <= j < |before| ==> after[j].id == before[j].id
    requires UniqueIds(before) && !HasId(before, EmptyGuid)
    ensures UniqueIds(after) && !HasId(after, EmptyGuid)
  {
  }

  /** A selected record ends Overdue with its id, title, description and due
      date unchanged; a record the query does not select ends exactly as it was. */
  lemma SweepMarksExactlyTheCandidates(tasks: seq<UserTask>, now: DateTime, j: nat)
    requires j < |tasks|
    ensures IsOverdueCandidate(tasks[j], now) ==>
      && SweepResult(tasks, now)[j].status == Overdue
      && SweepResult(tasks, now)[j] == tasks[j].(status := Overdue)
    ensures !IsOverdueCandidate(tasks[j], now) ==> SweepResult(tasks, now)[j] == tasks[j]
    ensures SweepResult(tasks, now)[j].id == tasks[j].id
  {
  }

  /** After a sweep the query at the same `now` selects nothing. */
  lemma NothingLeftAfterSweep(tasks: seq<UserTask>, now: DateTime)
    ensures OverdueIndices(SweepResult(tasks, now), now) == []
  {
    NoCandidateNoIndices(SweepResult(tasks, now), now, 0);
  }

  lemma {:induction false} NoCandidateNoIndices(tasks: seq<UserTask>, now: DateTime, k: nat)
    requires k <= |tasks|
    requires forall j :: k <= j < |tasks| ==> !IsOverdueCandidate(tasks[j], now)
    ensures OverdueFrom(tasks, now, k) == []
    decreases |tasks| - k
  {
    if k < |tasks| {
      NoCandidateNoIndices(tasks, now, k + 1);
    }
  }

  /** A second sweep with the same `now` changes nothing. */
  lemma SweepIdempotent(tasks: seq<UserTask>, now: DateTime)
    ensures SweepResult(SweepResult(tasks, now), now) == SweepResult(tasks, now)
  {
    var once := SweepResult(tasks, now);
    assert forall j :: 0 <= j < |once| ==> MarkIfOverdue(once[j], now) == once[j];
  }

  /** A sweep at a later time subsumes one at an earlier time: whatever the
      earlier sweep marked the later one marks too, and nothing else differs. */
  lemma LaterSweepSubsumesEarlier(tasks: seq<UserTask>, earlier: DateTime, later: DateTime)
    requires earlier <= later
    ensures SweepResult(SweepResult(tasks, earlier), later) == SweepResult(tasks, later)
  {
    var once := SweepResult(tasks, earlier);
    forall j | 0 <= j < |tasks|
      ensures MarkIfOverdue(once[j], later) == MarkIfOverdue(tasks[j], later)
    {
      if IsOverdueCandidate(tasks[j], earlier) {
        assert IsOverdueCandidate(tasks[j], later);
      }
    }
  }

  /** The settings under BackgroundServices: each value is absent when the
      configuration does not set it. */
  datatype OverdueSettings = OverdueSettings(checkEnabled: Option<bool>, checkIntervalMinutes: Option<Int32>)

  /** ExecuteAsync's start-up: None when the service is switched off (it returns
      before its loop, so no sweep ever runs), otherwise the check interval in
      minutes. The switch defaults to on and the interval to 1 minute. */
  function StartUp(settings: OverdueSettings): (r: Option<Int32>)
    ensures r.None? <==> settings.checkEnabled == Some(false)
    ensures r.Some? && settings.checkIntervalMinutes.None? ==> r.value == 1
    ensures r.Some? && settings.checkIntervalMinutes.Some? ==> r.value == settings.checkIntervalMinutes.value
  {
    var enabled := match settings.checkEnabled case None => true case Some(b) => b;
    if !enabled then None
    else match settings.checkIntervalMinutes case None => Some(1) case Some(m) => Some(m)
  }

  /** How one round of the loop ends: the sweep finished, the sweep threw, or
      stopping was requested. */
  datatype RoundOutcome = SweepCompleted | SweepThrew | StopRequested

  const MillisecondsPerMinute := 60_000
  /** The wait after an error: TimeSpan.FromMinutes(5). */
  const BackoffMilliseconds := 5 * MillisecondsPerMinute
  /** The longest wait Task.Delay accepts; -1 means infinite, anything else
      outside -1..this bound makes it throw ArgumentOutOfRangeException. */
  const MaxDelayMilliseconds := 4_294_967_294

  predicate DelayAccepted(milliseconds: int)
  {
    -1 <= milliseconds <= MaxDelayMilliseconds
  }

  /** The wait that follows a round, in milliseconds, or None when the loop
      ends. After a completed sweep it is the interval; when Task.Delay refuses
      the interval it throws, the catch clause takes over and the wait is the
      back-off, as it is after a failed sweep. */
  function NextDelay(outcome: RoundOutcome, intervalMinutes: Int32): (r: Option<int>)
    ensures r.None? <==> outcome == StopRequested
    ensures outcome == SweepThrew ==> r == Some(BackoffMilliseconds)
    ensures outcome == SweepCompleted && 0 <= intervalMinutes <= 71_582 ==>
      r == Some(intervalMinutes * MillisecondsPerMinute)
    ensures outcome == SweepCompleted && (intervalMinutes < 0 || intervalMinutes > 71_582) ==>
      r == Some(BackoffMilliseconds)
  {
    match outcome
    case StopRequested => None
    case SweepThrew => Some(BackoffMilliseconds)
    case SweepCompleted =>
      var interval := intervalMinutes * MillisecondsPerMinute;
      if DelayAccepted(interval) then Some(interval) else Some(BackoffMilliseconds)
  }
}
