/** The background task queue of `src/app/tasks.cpp`. The wall clock is a parameter. */
module Tasks {
  import opened Text

  datatype Status = Pending | Running | Done | Failed | Cancelled

  datatype Task = Task(
    id: string,
    connectorId: string,
    command: string,
    payloadJson: string,
    status: Status,
    createdAt: int,
    updatedAt: int,
    scheduledFor: int,
    recurrence: int,
    runCount: int,
    errorMessage: string,
    resultJson: string)

  const MAX_HISTORY_ENTRIES: nat := 256

  predicate IsTerminal(t: Task) { t.status.Done? || t.status.Failed? || t.status.Cancelled? }

  predicate IsDue(t: Task, now: int) { t.status.Pending? && t.scheduledFor <= now }

  // ---- what the operations do ------------------------------------------------------

  function IndexOf(ts: seq<Task>, id: string): (r: Option<nat>)
    ensures r.Some? ==> r.value < |ts| && ts[r.value].id == id && forall k | 0 <= k < r.value :: ts[k].id != id
    ensures r.None? ==> forall k | 0 <= k < |ts| :: ts[k].id != id
  {
    if ts == [] then None
    else if ts[0].id == id then Some(0)
    else match IndexOf(ts[1..], id)
      case None => None
      case Some(i) => Some(i + 1)
  }

  function NextDue(ts: seq<Task>, now: int): (r: Option<nat>)
    ensures r.Some? ==> r.value < |ts| && IsDue(ts[r.value], now) && forall k | 0 <= k < r.value :: !IsDue(ts[k], now)
    ensures r.None? ==> forall k | 0 <= k < |ts| :: !IsDue(ts[k], now)
  {
    if ts == [] then None
    else if IsDue(ts[0], now) then Some(0)
    else match NextDue(ts[1..], now)
      case None => None
      case Some(i) => Some(i + 1)
  }

  function FirstTerminal(ts: seq<Task>): (r: Option<nat>)
    ensures r.Some? ==> r.value < |ts| && IsTerminal(ts[r.value]) && forall k | 0 <= k < r.value :: !IsTerminal(ts[k])
    ensures r.None? ==> forall k | 0 <= k < |ts| :: !IsTerminal(ts[k])
  {
    if ts == [] then None
    else if IsTerminal(ts[0]) then Some(0)
    else match FirstTerminal(ts[1..])
      case None => None
      case Some(i) => Some(i + 1)
  }

  function Trim(ts: seq<Task>): seq<Task>
    decreases |ts|
  {
    if |ts| <= MAX_HISTORY_ENTRIES then ts
    else match FirstTerminal(ts)
      case None => ts
      case Some(i) => Trim(ts[..i] + ts[i + 1..])
  }

  function Claim(t: Task, now: int): Task {
    t.(status := Running, updatedAt := now, runCount := t.runCount + 1)
  }

  /** A recurring task goes back to pending after a run; a one-shot task ends. */
  function AfterRun(t: Task, now: int, ended: Status): Task {
    if t.recurrence > 0 then t.(updatedAt := now, status := Pending, scheduledFor := now + t.recurrence)
    else t.(updatedAt := now, status := ended)
  }

  function Completed(t: Task, now: int, result: string): Task { AfterRun(t.(resultJson := result), now, Done) }

  function FailedRun(t: Task, now: int, error: string): Task { AfterRun(t.(errorMessage := error), now, Failed) }

  function CancelTask(t: Task, now: int): Task { t.(status := Cancelled, updatedAt := now) }

  function Enqueued(ts: seq<Task>, t: Task, now: int): seq<Task> {
    Trim(ts + [t.(createdAt := now, updatedAt := now)])
  }

  function AfterClaim(ts: seq<Task>, now: int): seq<Task> {
    match NextDue(ts, now)
    case None => ts
    case Some(i) => ts[i := Claim(ts[i], now)]
  }

  function AfterComplete(ts: seq<Task>, id: string, now: int, result: string): seq<Task> {
    match IndexOf(ts, id)
    case None => ts
    case Some(i) => Trim(ts[i := Completed(ts[i], now, result)])
  }

  function AfterFail(ts: seq<Task>, id: string, now: int, error: string): seq<Task> {
    match IndexOf(ts, id)
    case None => ts
    case Some(i) => Trim(ts[i := FailedRun(ts[i], now, error)])
  }

  predicate CanCancel(ts: seq<Task>, id: string) {
    IndexOf(ts, id).Some? && !IsTerminal(ts[IndexOf(ts, id).value])
  }

  function AfterCancel(ts: seq<Task>, id: string, now: int): seq<Task> {
    if CanCancel(ts, id) then
      var i := IndexOf(ts, id).value;
      Trim(ts[i := CancelTask(ts[i], now)])
    else ts
  }

  // ---- the queue ----------------------------------------------------------------------

  class TaskQueue {
    var tasks: seq<Task>

    constructor ()
      ensures tasks == []
    {
      tasks := [];
    }

    /** `generatedId` is what `generate_task_id` returns when it is called. */
    method Enqueue(task: Task, generatedId: string, now: int) returns (id: string)
      modifies this
      ensures id == if task.id == "" then generatedId else task.id
      ensures tasks == Enqueued(old(tasks), task.(id := id), now)
    {
      id := if task.id == "" then generatedId else task.id;
      tasks := tasks + [task.(id := id, createdAt := now, updatedAt := now)];
      TrimHistory();
    }

    method ClaimNext(now: int) returns (claimed: Option<Task>)
      modifies this
      ensures tasks == AfterClaim(old(tasks), now)
      ensures var next := NextDue(old(tasks), now);
        claimed == if next.Some? then Some(tasks[next.value]) else None
    {
      for i := 0 to |tasks|
        invariant tasks == old(tasks)
        invariant forall k | 0 <= k < i :: !IsDue(tasks[k], now)
      {
        if tasks[i].status != Pending { continue; }
        if tasks[i].scheduledFor > now { continue; }
        tasks := tasks[i := Claim(tasks[i], now)];
        return Some(tasks[i]);
      }
      return None;
    }

    method Complete(id: string, result: string, now: int) returns (found: bool)
      modifies this
      ensures tasks == AfterComplete(old(tasks), id, now, result)
      ensures found <==> exists k :: 0 <= k < |old(tasks)| && old(tasks)[k].id == id
    {
      for i := 0 to |tasks|
        invariant tasks == old(tasks)
        invariant forall k | 0 <= k < i :: tasks[k].id != id
      {
        if tasks[i].id == id {
          tasks := tasks[i := Completed(tasks[i], now, result)];
          TrimHistory();
          return true;
        }
      }
      return false;
    }

    method Fail(id: string, error: string, now: int) returns (found: bool)
      modifies this
      ensures tasks == AfterFail(old(tasks), id, now, error)
      ensures found <==> exists k :: 0 <= k < |old(tasks)| && old(tasks)[k].id == id
    {
      for i := 0 to |tasks|
        invariant tasks == old(tasks)
        invariant forall k | 0 <= k < i :: tasks[k].id != id
      {
        if tasks[i].id == id {
          tasks := tasks[i := FailedRun(tasks[i], now, error)];
          TrimHistory();
          return true;
        }
      }
      return false;
    }

    method Cancel(id: string, now: int) returns (cancelled: bool)
      modifies this
      ensures tasks == AfterCancel(old(tasks), id, now)
      ensures cancelled == CanCancel(old(tasks), id)
    {
      for i := 0 to |tasks|
        invariant tasks == old(tasks)
        invariant forall k | 0 <= k < i :: tasks[k].id != id
      {
        if tasks[i].id == id {
          if IsTerminal(tasks[i]) { return false; }
          tasks := tasks[i := CancelTask(tasks[i], now)];
          TrimHistory();
          return true;
        }
      }
      return false;
    }

    method Lookup(id: string) returns (task: Option<Task>)
      ensures task == match IndexOf(tasks, id) case None => None case Some(i) => Some(tasks[i])
    {
      for i := 0 to |tasks|
        invariant forall k | 0 <= k < i :: tasks[k].id != id
      {
        if tasks[i].id == id { return Some(tasks[i]); }
      }
      return None;
    }

    method TrimHistory()
      modifies this
      ensures tasks == Trim(old(tasks))
    {
      while |tasks| > MAX_HISTORY_ENTRIES
        invariant Trim(tasks) == Trim(old(tasks))
        decreases |tasks|
      {
        var trimmed := false;
        ghost var before := tasks;
        for i := 0 to |tasks|
          invariant tasks == before && !trimmed
          invariant forall k | 0 <= k < i :: !IsTerminal(tasks[k])
        {
          if IsTerminal(tasks[i]) {
            tasks := tasks[..i] + tasks[i + 1..];
            trimmed := true;
            break;
          }
        }
        if !trimmed { break; }
      }
    }
  }

  // ---- trimming -----------------------------------------------------------------------------

  /** `ts` without its first `k` terminal tasks. */
  function DropTerminals(ts: seq<Task>, k: nat): seq<Task> {
    if ts == [] || k == 0 then ts
    else if IsTerminal(ts[0]) then DropTerminals(ts[1..], k - 1)
    else [ts[0]] + DropTerminals(ts[1..], k)
  }

  function CountTerminals(ts: seq<Task>): (n: nat)
    ensures n <= |ts|
  {
    if ts == [] then 0 else (if IsTerminal(ts[0]) then 1 else 0) + CountTerminals(ts[1..])
  }

  function Live(ts: seq<Task>): seq<Task> {
    if ts == [] then [] else (if IsTerminal(ts[0]) then [] else [ts[0]]) + Live(ts[1..])
  }

  function Excess(ts: seq<Task>): nat {
    var over := if |ts| > MAX_HISTORY_ENTRIES then |ts| - MAX_HISTORY_ENTRIES else 0;
    if over <= CountTerminals(ts) then over else CountTerminals(ts)
  }

  lemma {:induction false} RemoveFirstTerminal(ts: seq<Task>, i: nat, k: nat)
    requires FirstTerminal(ts) == Some(i)
    ensures var rest := ts[..i] + ts[i + 1..];
      && CountTerminals(ts) == CountTerminals(rest) + 1
      && DropTerminals(ts, k + 1) == DropTerminals(rest, k)
      && Live(ts) == Live(rest)
  {
    var rest := ts[..i] + ts[i + 1..];
    if i == 0 {
      assert rest == ts[1..];
    } else {
      RemoveFirstTerminal(ts[1..], i - 1, k);
      assert rest[0] == ts[0] && rest[1..] == ts[1..][..i - 1] + ts[1..][i..];
    }
  }

  lemma {:induction false} NoTerminals(ts: seq<Task>)
    requires FirstTerminal(ts).None?
    ensures CountTerminals(ts) == 0
  {
    if ts != [] {
      NoTerminals(ts[1..]);
    }
  }

  /** Trimming removes exactly the earliest terminal tasks, as many as the excess over 256 or
      as there are; every pending or running task is kept, in order. */
  lemma {:induction false} TrimDropsEarliest(ts: seq<Task>)
    ensures Trim(ts) == DropTerminals(ts, Excess(ts))
    ensures Live(Trim(ts)) == Live(ts)
    ensures |Trim(ts)| <= MAX_HISTORY_ENTRIES || CountTerminals(Trim(ts)) == 0
    decreases |ts|
  {
    hide Live, DropTerminals, CountTerminals;
    if |ts| > MAX_HISTORY_ENTRIES {
      var first := FirstTerminal(ts);
      if first.None? {
        NoTerminals(ts);
        DropNone(ts);
      } else {
        var rest := ts[..first.value] + ts[first.value + 1..];
        TrimDropsEarliest(rest);
        RemoveFirstTerminal(ts, first.value, Excess(rest));
        assert Excess(ts) == Excess(rest) + 1;
      }
    } else {
      DropNone(ts);
    }
  }

  lemma DropNone(ts: seq<Task>)
    ensures DropTerminals(ts, 0) == ts
  {
  }
}
