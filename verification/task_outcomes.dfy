/** What each operation of the task queue leaves of the task it is about and of the others,
    field by field, in any state of a run. */
module TaskOutcomes {
  import opened Text
  import opened Tasks
  import opened TaskRuns

  /** `id` is the id of the `i`th task and of no other. */
  predicate IsAt(ts: seq<Task>, id: string, i: nat) {
    i < |ts| && ts[i].id == id && forall k | 0 <= k < |ts| && k != i :: ts[k].id != id
  }

  lemma FoundAt(ts: seq<Task>, id: string, i: nat)
    requires IsAt(ts, id, i)
    ensures IndexOf(ts, id) == Some(i)
  {
  }

  lemma ReplacedAndTrimmed(ts: seq<Task>, i: nat, u: Task)
    requires IsAt(ts, u.id, i)
    ensures forall v | v in Trim(ts[i := u]) :: if v.id == u.id then v == u else v in ts
    ensures forall v | v in ts && v.id != u.id && (v.status.Pending? || v.status.Running?) :: v in Trim(ts[i := u])
    ensures u.status.Pending? || u.status.Running? || |ts| <= 256 ==> u in Trim(ts[i := u])
    ensures |ts| <= 256 ==> Trim(ts[i := u]) == ts[i := u]
  {
    var us := ts[i := u];
    TrimKeeps(us);
    hide Trim;
    assert us[i] == u;
    forall v | v in us ensures if v.id == u.id then v == u else v in ts {
      var k :| 0 <= k < |us| && us[k] == v;
      assert k != i ==> us[k] == ts[k];
    }
    forall v | v in ts && v.id != u.id ensures v in us {
      var k :| 0 <= k < |ts| && ts[k] == v;
      assert k != i && us[k] == v;
    }
    if |ts| <= 256 {
      NothingToTrim(us);
    }
  }

  lemma NothingToTrim(ts: seq<Task>)
    requires |ts| <= 256
    ensures Trim(ts) == ts
  {
  }

  /** `after` is `before` with the `i`th task replaced by `u`; of more than 256 tasks some ended ones
      may be gone, but none that is pending or running. */
  predicate Becomes(before: seq<Task>, i: nat, u: Task, after: seq<Task>)
    requires i < |before|
  {
    && (|before| <= 256 ==> after == before[i := u])
    && (forall v | v in after :: if v.id == u.id then v == u else v in before)
    && (forall v | v in before && v.id != u.id && (v.status.Pending? || v.status.Running?) :: v in after)
    && (u.status.Pending? || u.status.Running? ==> u in after)
  }

  /** A completed one-shot task is done and a recurring one pending again after its recurrence; the
      result is recorded, and nothing else of the task and nothing of the others changes. */
  lemma CompletionRecords(s: State, id: string, result: string, now: int, i: nat)
    requires IsAt(s.tasks, id, i)
    ensures var t := s.tasks[i];
      var u := if t.recurrence > 0
        then t.(resultJson := result, status := Pending, updatedAt := now, scheduledFor := now + t.recurrence)
        else t.(resultJson := result, status := Done, updatedAt := now);
      Becomes(s.tasks, i, u, Step(s, Timed(Event.Complete(id, result), now)).tasks)
  {
    hide IsAt, Trim;
    FoundAt(s.tasks, id, i);
    ReplacedAndTrimmed(s.tasks, i, Completed(s.tasks[i], now, result));
  }

  /** A failed one-shot task has failed and a recurring one is pending again after its recurrence;
      the error is recorded, and nothing else of the task and nothing of the others changes. */
  lemma FailureRecords(s: State, id: string, error: string, now: int, i: nat)
    requires IsAt(s.tasks, id, i)
    ensures var t := s.tasks[i];
      var u := if t.recurrence > 0
        then t.(errorMessage := error, status := Pending, updatedAt := now, scheduledFor := now + t.recurrence)
        else t.(errorMessage := error, status := Failed, updatedAt := now);
      Becomes(s.tasks, i, u, Step(s, Timed(Event.Fail(id, error), now)).tasks)
  {
    hide IsAt, Trim;
    FoundAt(s.tasks, id, i);
    ReplacedAndTrimmed(s.tasks, i, FailedRun(s.tasks[i], now, error));
  }

  /** A pending or running task is cancelled; an ended one stays as it is. */
  lemma CancellationStops(s: State, id: string, now: int, i: nat)
    requires IsAt(s.tasks, id, i)
    ensures var t := s.tasks[i];
      var after := Step(s, Timed(Event.Cancel(id), now)).tasks;
      if t.status.Pending? || t.status.Running?
      then Becomes(s.tasks, i, t.(status := Cancelled, updatedAt := now), after)
      else after == s.tasks
  {
    hide IsAt, Trim;
    FoundAt(s.tasks, id, i);
    ReplacedAndTrimmed(s.tasks, i, CancelTask(s.tasks[i], now));
  }

  /** An id no task has changes no task. */
  lemma UnknownIdChangesNothing(s: State, id: string, text: string, now: int)
    requires forall t | t in s.tasks :: t.id != id
    ensures Step(s, Timed(Event.Complete(id, text), now)).tasks == s.tasks
    ensures Step(s, Timed(Event.Fail(id, text), now)).tasks == s.tasks
    ensures Step(s, Timed(Event.Cancel(id), now)).tasks == s.tasks
  {
    var i := IndexOf(s.tasks, id);
  }

  /** The first pending task whose time has come is running, claimed once more; the others stay. */
  lemma FirstDueIsClaimed(s: State, now: int, i: nat)
    requires i < |s.tasks| && s.tasks[i].status.Pending? && s.tasks[i].scheduledFor <= now
    requires forall k | 0 <= k < i :: !s.tasks[k].status.Pending? || s.tasks[k].scheduledFor > now
    ensures var t := s.tasks[i];
      var after := Step(s, Timed(Event.ClaimNext, now));
      && after.tasks == s.tasks[i := t.(status := Running, updatedAt := now, runCount := t.runCount + 1)]
      && after.claims == s.claims + [ClaimRecord(t.id, now, t.recurrence)]
      && after.inFlight == Some(t.id)
  {
  }

  lemma NothingDueIsClaimed(s: State, now: int)
    requires forall t | t in s.tasks :: !t.status.Pending? || t.scheduledFor > now
    ensures Step(s, Timed(Event.ClaimNext, now)) == s.(clock := now)
  {
    var next := NextDue(s.tasks, now);
  }

  /** A task is put behind the others, with its id and its two times filled in. */
  lemma SubmissionIsLast(s: State, task: Task, id: string, now: int)
    ensures var t := task.(id := id, createdAt := now, updatedAt := now);
      var after := Step(s, Timed(Submit(task, id), now)).tasks;
      && (|s.tasks| < 256 ==> after == s.tasks + [t])
      && (t.status.Pending? || t.status.Running? ==> t in after)
      && forall v | v in s.tasks && (v.status.Pending? || v.status.Running?) :: v in after
  {
    var t := task.(id := id, createdAt := now, updatedAt := now);
    var us := s.tasks + [t];
    TrimKeeps(us);
    assert us[|s.tasks|] == t;
    assert Step(s, Timed(Submit(task, id), now)).tasks == Trim(us);
    if |s.tasks| < 256 {
      NothingToTrim(us);
    }
  }

  /** In a full queue the earliest ended task makes room; without one the queue grows. */
  lemma EarliestEndedMakesRoom(s: State, task: Task, id: string, now: int, i: nat)
    requires |s.tasks| == 256 && task.status.Pending? && i <= 256
    requires forall k | 0 <= k < i :: s.tasks[k].status.Pending? || s.tasks[k].status.Running?
    requires i < 256 ==> !s.tasks[i].status.Pending? && !s.tasks[i].status.Running?
    ensures var t := task.(id := id, createdAt := now, updatedAt := now);
      var after := Step(s, Timed(Submit(task, id), now)).tasks;
      after == if i == 256 then s.tasks + [t] else s.tasks[..i] + s.tasks[i + 1..] + [t]
  {
    hide IsTerminal;
    var t := task.(id := id, createdAt := now, updatedAt := now);
    var us := s.tasks + [t];
    assert Step(s, Timed(Submit(task, id), now)).tasks == Trim(us);
    EndedIsTerminal(us);
    assert forall k | 0 <= k < 256 :: us[k] == s.tasks[k];
    assert us[256] == t;
    var first := FirstTerminal(us);
    assert forall k | 0 <= k < i :: !IsTerminal(us[k]);
    if i == 256 {
      assert first.None?;
    } else {
      assert IsTerminal(us[i]);
      assert first == Some(i);
      var rest := us[..i] + us[i + 1..];
      assert rest == s.tasks[..i] + s.tasks[i + 1..] + [t];
      NothingToTrim(rest);
    }
  }

  lemma EndedIsTerminal(ts: seq<Task>)
    ensures forall k | 0 <= k < |ts| :: IsTerminal(ts[k]) <==> !ts[k].status.Pending? && !ts[k].status.Running?
  {
  }
}
