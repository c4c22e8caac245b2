/**
 * The complete/postpone cycle of one task, as pure transitions on a row of
 * `tasks`. The services in `TasksService` apply these to the store.
 */
module TaskLifecycle {
  import opened Wrappers
  import opened Calendar
  import opened Recurrence
  import opened Store

  /** The row after `completeTask`: a new cycle starts at the completion instant. */
  function AfterCompletion(t: Task, completedAt: Instant): (r: Task)
    ensures r.id == t.id && r.spaceId == t.spaceId && r.userId == t.userId && r.name == t.name
    ensures r.recurrenceValue == t.recurrenceValue && r.recurrenceUnit == t.recurrenceUnit
    ensures r.lastCompletedAt == Some(completedAt)
    ensures r.postponementCount == 0 && r.status == Pending
    ensures r.dueDate.time == completedAt.time
    ensures t.recurrenceUnit == Days ==>
      DayNumber(r.dueDate.date) == DayNumber(completedAt.date) + t.recurrenceValue
    ensures t.recurrenceUnit == Months ==> MonthsLater(completedAt.date, t.recurrenceValue, r.dueDate.date)
  {
    t.(lastCompletedAt := Some(completedAt),
       postponementCount := 0,
       dueDate := CalculateDueDate(completedAt, t.recurrenceValue, t.recurrenceUnit),
       status := Pending)
  }

  /** The row after `postponeTask`: one more postponement, due one day after `now`. */
  function AfterPostponement(t: Task, now: Instant): (r: Task)
    ensures r.id == t.id && r.spaceId == t.spaceId && r.userId == t.userId && r.name == t.name
    ensures r.recurrenceValue == t.recurrenceValue && r.recurrenceUnit == t.recurrenceUnit
    ensures r.lastCompletedAt == t.lastCompletedAt
    ensures r.postponementCount == t.postponementCount + 1 && r.status == Postponed
    ensures r.dueDate.time == now.time
    ensures DayNumber(r.dueDate.date) == DayNumber(now.date) + 1
    ensures EpochMs(r.dueDate) == EpochMs(now) + MsPerDay
  {
    t.(postponementCount := t.postponementCount + 1,
       dueDate := AddDaysAt(now, 1),
       status := Postponed)
  }

  /** The lifecycle refusals (`PostponementLimitError`). */
  datatype LifecycleError = PostponementRefused

  datatype Step = Complete(completedAt: Instant) | Postpone(now: Instant)

  /** One step on an existing row: completion always succeeds, postponing is refused at the limit. */
  function Apply(t: Task, step: Step): (r: Result<Task, LifecycleError>)
    ensures step.Complete? ==> r == Ok(AfterCompletion(t, step.completedAt))
    ensures step.Postpone? ==>
      (r.Err? <==> t.postponementCount >= MaxPostponements) &&
      (r.Ok? ==> r.value == AfterPostponement(t, step.now))
  {
    match step
    case Complete(at) => Ok(AfterCompletion(t, at))
    case Postpone(now) =>
      if t.postponementCount >= MaxPostponements then Err(PostponementRefused)
      else Ok(AfterPostponement(t, now))
  }

  /** The row after one request: the updated row, or the row as it was when the request is refused. */
  function Attempt(t: Task, step: Step): Task {
    var r := Apply(t, step);
    if r.Ok? then r.value else t
  }

  /** A sequence of requests on one task; a refused request leaves the row as it was. */
  function Run(t: Task, steps: seq<Step>): Task
    decreases |steps|
  {
    if steps == [] then t
    else Run(Attempt(t, steps[0]), steps[1..])
  }

  predicate CountInRange(t: Task) {
    0 <= t.postponementCount <= MaxPostponements
  }

  /** One step keeps the postponement counter in 0..3. */
  lemma ApplyKeepsCount(t: Task, step: Step)
    requires CountInRange(t)
    ensures Apply(t, step).Ok? ==> CountInRange(Apply(t, step).value)
  {
  }

  /** Any sequence of complete and postpone requests keeps the counter in 0..3. */
  lemma {:induction false} RunKeepsCount(t: Task, steps: seq<Step>)
    requires CountInRange(t)
    ensures CountInRange(Run(t, steps))
    decreases |steps|
  {
    if steps != [] {
      ApplyKeepsCount(t, steps[0]);
      RunKeepsCount(Attempt(t, steps[0]), steps[1..]);
    }
  }

  function Min(a: int, b: int): int { if a <= b then a else b }

  /** The number of postpone requests after the last completion. */
  function TrailingPostpones(steps: seq<Step>): (n: nat)
    ensures n <= |steps|
    decreases |steps|
  {
    if steps == [] then 0
    else if steps[|steps| - 1].Postpone? then TrailingPostpones(steps[..|steps| - 1]) + 1
    else 0
  }

  predicate HasComplete(steps: seq<Step>) {
    exists i | 0 <= i < |steps| :: steps[i].Complete?
  }

  lemma RunSnoc(t: Task, steps: seq<Step>, last: Step)
    ensures Run(t, steps + [last]) == Attempt(Run(t, steps), last)
    decreases |steps|
  {
    if steps != [] {
      assert (steps + [last])[1..] == steps[1..] + [last];
      RunSnoc(Attempt(t, steps[0]), steps[1..], last);
    }
  }

  /**
   * The counter after a run is exactly the number of postpone requests since
   * the last completion (or since the start, added to the initial counter),
   * saturated at 3: the requests beyond the third are the ones refused.
   */
  lemma {:induction false} RunCount(t: Task, steps: seq<Step>)
    requires CountInRange(t)
    ensures Run(t, steps).postponementCount ==
      if HasComplete(steps) then Min(MaxPostponements, TrailingPostpones(steps))
      else Min(MaxPostponements, t.postponementCount + TrailingPostpones(steps))
    decreases |steps|
  {
    if steps == [] {
    } else {
      var init := steps[..|steps| - 1];
      var last := steps[|steps| - 1];
      assert steps == init + [last];
      RunSnoc(t, init, last);
      RunCount(t, init);
      RunKeepsCount(t, init);
      HasCompleteSnoc(init, last);
    }
  }

  /** A run with one more step has a completion when the shorter run had one or the new step is one. */
  lemma HasCompleteSnoc(init: seq<Step>, last: Step)
    ensures HasComplete(init + [last]) <==> HasComplete(init) || last.Complete?
  {
    var steps := init + [last];
    if HasComplete(steps) && !last.Complete? {
      var i :| 0 <= i < |steps| && steps[i].Complete?;
      assert init[i] == steps[i];
    }
    if HasComplete(init) {
      var i :| 0 <= i < |init| && init[i].Complete?;
      assert steps[i] == init[i];
    }
    if last.Complete? {
      assert steps[|init|].Complete?;
    }
  }

  /** Completing restarts the cycle: whatever the prior counter, status and due date, the row is the same. */
  lemma CompletionForgetsCycle(t: Task, u: Task, completedAt: Instant)
    requires t.id == u.id && t.spaceId == u.spaceId && t.userId == u.userId && t.name == u.name
    requires t.recurrenceValue == u.recurrenceValue && t.recurrenceUnit == u.recurrenceUnit
    ensures AfterCompletion(t, completedAt) == AfterCompletion(u, completedAt)
  {
  }

  /** Postponing counts from `now`, never from the old due date. */
  lemma PostponeIgnoresOldDueDate(t: Task, oldDue: Instant, now: Instant)
    ensures AfterPostponement(t.(dueDate := oldDue), now) == AfterPostponement(t, now)
  {
  }

  /** From a fresh cycle three postponements are accepted and the fourth is refused. */
  lemma FourthPostponementRefused(t: Task, a: Instant, b: Instant, c: Instant, d: Instant)
    requires t.postponementCount == 0
    ensures Apply(t, Postpone(a)).Ok?
    ensures Apply(AfterPostponement(t, a), Postpone(b)).Ok?
    ensures Apply(AfterPostponement(AfterPostponement(t, a), b), Postpone(c)).Ok?
    ensures Apply(AfterPostponement(AfterPostponement(AfterPostponement(t, a), b), c), Postpone(d)) == Err(PostponementRefused)
  {
  }
}
