/** Every run of the task queue: submissions, claims, completions, failures and cancellations
    in any order, under a clock that never goes back. */
module TaskRuns {
  import opened Text
  import opened Tasks

  /** One successful claim. */
  datatype ClaimRecord = ClaimRecord(id: string, time: int, recurrence: int)

  datatype State = State(
    tasks: seq<Task>,
    clock: int,
    claims: seq<ClaimRecord>,
    usedIds: set<string>,
    inFlight: Option<string>)   // the task claimed last and not yet completed or failed

  datatype Event =
    | Submit(task: Task, generatedId: string)
    | ClaimNext
    | Complete(id: string, result: string)
    | Fail(id: string, error: string)
    | Cancel(id: string)

  datatype Timed = Timed(event: Event, now: int)

  /** A task as `parse_task_request_from_json` makes it. */
  predicate IsRequest(t: Task) {
    t.id == "" && t.status.Pending? && t.runCount == 0
  }

  /** Generated ids are never reused. */
  predicate Enabled(s: State, e: Timed) {
    s.clock <= e.now &&
    (e.event.Submit? ==> IsRequest(e.event.task) && e.event.generatedId != "" && e.event.generatedId !in s.usedIds)
  }

  function Ended(inFlight: Option<string>, id: string): Option<string> {
    if inFlight == Some(id) then None else inFlight
  }

  function Step(s: State, e: Timed): State {
    var s := s.(clock := e.now);
    match e.event
    case Submit(task, id) =>
      s.(tasks := Enqueued(s.tasks, task.(id := id), e.now), usedIds := s.usedIds + {id})
    case ClaimNext =>
      var next := NextDue(s.tasks, e.now);
      if next.None? then s
      else
        var t := s.tasks[next.value];
        s.(tasks := AfterClaim(s.tasks, e.now),
           claims := s.claims + [ClaimRecord(t.id, e.now, t.recurrence)],
           inFlight := Some(t.id))
    case Complete(id, result) =>
      s.(tasks := AfterComplete(s.tasks, id, e.now, result), inFlight := Ended(s.inFlight, id))
    case Fail(id, error) =>
      s.(tasks := AfterFail(s.tasks, id, e.now, error), inFlight := Ended(s.inFlight, id))
    case Cancel(id) =>
      s.(tasks := AfterCancel(s.tasks, id, e.now))
  }

  predicate Valid(s: State, run: seq<Timed>)
    decreases |run|
  {
    run == [] || (Enabled(s, run[0]) && Valid(Step(s, run[0]), run[1..]))
  }

  function Run(s: State, run: seq<Timed>): State
    decreases |run|
  {
    if run == [] then s else Run(Step(s, run[0]), run[1..])
  }

  function Start(now: int): State {
    State([], now, [], {}, None)
  }

  // ---- trimming inside a run ---------------------------------------------------------

  predicate Distinct(ts: seq<Task>) {
    forall i, j | 0 <= i < j < |ts| :: ts[i].id != ts[j].id
  }

  lemma RemoveAt(ts: seq<Task>, i: nat)
    requires i < |ts|
    ensures forall t | t in ts[..i] + ts[i + 1..] :: t in ts
    ensures forall t | t in ts :: t == ts[i] || t in ts[..i] + ts[i + 1..]
    ensures Distinct(ts) ==> Distinct(ts[..i] + ts[i + 1..])
  {
    var rest := ts[..i] + ts[i + 1..];
    forall t | t in ts ensures t == ts[i] || t in rest {
      var k :| 0 <= k < |ts| && ts[k] == t;
      if k < i {
        assert rest[k] == t;
      } else if k > i {
        assert rest[k - 1] == t;
      }
    }
  }

  lemma {:induction false} TrimKeeps(ts: seq<Task>)
    ensures forall t | t in Trim(ts) :: t in ts
    ensures Distinct(ts) ==> Distinct(Trim(ts))
    ensures forall t | t in ts && !IsTerminal(t) :: t in Trim(ts)
    decreases |ts|
  {
    hide Distinct;
    var first := FirstTerminal(ts);
    if |ts| > MAX_HISTORY_ENTRIES && first.Some? {
      RemoveAt(ts, first.value);
      TrimKeeps(ts[..first.value] + ts[first.value + 1..]);
    }
  }

  // ---- the invariant ---------------------------------------------------------------------

  /** Of two claims of the same task the task is recurring, and the later one is at least its
      recurrence after the earlier one. */
  ghost predicate Spaced(claims: seq<ClaimRecord>) {
    forall i, j | 0 <= i < j < |claims| && claims[i].id == claims[j].id ::
      claims[j].recurrence == claims[i].recurrence > 0 && claims[j].time >= claims[i].time + claims[i].recurrence
  }

  function CountClaims(claims: seq<ClaimRecord>, id: string): nat {
    if claims == [] then 0
    else CountClaims(claims[..|claims| - 1], id) + (if claims[|claims| - 1].id == id then 1 else 0)
  }

  /** A pending task that was claimed before is recurring and waits out its recurrence. */
  predicate Waits(t: Task, c: ClaimRecord) {
    c.id == t.id ==>
      c.recurrence == t.recurrence
        && (t.status.Pending? ==> t.recurrence > 0 && t.scheduledFor >= c.time + t.recurrence)
  }

  ghost predicate Inv(s: State) {
    && Distinct(s.tasks)
    && (forall t | t in s.tasks :: t.id in s.usedIds)
    && (forall c | c in s.claims :: c.id in s.usedIds && c.time <= s.clock)
    && (forall t, c | t in s.tasks && c in s.claims :: Waits(t, c))
    && (forall t | t in s.tasks :: t.runCount == CountClaims(s.claims, t.id))
    && Spaced(s.claims)
  }

  /** `u` is `t` after an operation other than a claim, at time `now`. */
  predicate Succeeds(t: Task, u: Task, now: int) {
    && u.id == t.id && u.recurrence == t.recurrence && u.runCount == t.runCount
    && (u.status.Pending? ==>
      || (t.status.Pending? && u.scheduledFor == t.scheduledFor)
      || (t.recurrence > 0 && u.scheduledFor >= now + t.recurrence))
  }

  /** Replacing a task by its successor and trimming keeps the invariant. */
  lemma ReplaceKeeps(s: State, i: nat, u: Task, now: int)
    requires Inv(s) && i < |s.tasks| && s.clock <= now && Succeeds(s.tasks[i], u, now)
    ensures Inv(s.(tasks := Trim(s.tasks[i := u]), clock := now))
  {
    hide Spaced, CountClaims, Trim;
    var us := s.tasks[i := u];
    TrimKeeps(us);
    assert s.tasks[i] in s.tasks;
    forall t, c | t in Trim(us) && c in s.claims ensures Waits(t, c) {
      assert t in us;
      assert Waits(s.tasks[i], c);
    }
  }

  lemma {:induction false} NoClaims(claims: seq<ClaimRecord>, id: string)
    requires forall c | c in claims :: c.id != id
    ensures CountClaims(claims, id) == 0
  {
    if claims != [] {
      NoClaims(claims[..|claims| - 1], id);
    }
  }

  lemma SubmitKeeps(s: State, e: Timed)
    requires Inv(s) && Enabled(s, e) && e.event.Submit?
    ensures Inv(Step(s, e))
  {
    hide Spaced, CountClaims, Trim;
    var id := e.event.generatedId;
    var t := e.event.task.(id := id, createdAt := e.now, updatedAt := e.now);
    TrimKeeps(s.tasks + [t]);
    NoClaims(s.claims, id);
    assert Distinct(s.tasks + [t]);
    assert Step(s, e).tasks == Trim(s.tasks + [t]);
  }

  lemma ClaimKeeps(s: State, e: Timed)
    requires Inv(s) && Enabled(s, e) && e.event.ClaimNext?
    ensures Inv(Step(s, e))
  {
    hide CountClaims;
    var next := NextDue(s.tasks, e.now);
    if next.Some? {
      var i := next.value;
      var t := s.tasks[i];
      var c := ClaimRecord(t.id, e.now, t.recurrence);
      var us, cs := s.tasks[i := Claim(t, e.now)], s.claims + [c];
      ClaimIsSpaced(s, t, c);
      forall u | u in us ensures u.runCount == CountClaims(cs, u.id) && u.id in s.usedIds {
        CountOneMore(s.claims, c, u.id);
      }
      forall u, d | u in us && d in cs ensures Waits(u, d) {
        assert Waits(t, d) || d == c;
        if u in s.tasks && d in s.claims {
          assert Waits(u, d);
        }
      }
    }
  }

  lemma CountOneMore(claims: seq<ClaimRecord>, c: ClaimRecord, id: string)
    ensures CountClaims(claims + [c], id) == CountClaims(claims, id) + (if c.id == id then 1 else 0)
  {
    assert (claims + [c])[..|claims|] == claims;
  }

  lemma ClaimIsSpaced(s: State, t: Task, c: ClaimRecord)
    requires Inv(s) && t in s.tasks && IsDue(t, c.time) && c == ClaimRecord(t.id, c.time, t.recurrence)
    ensures Spaced(s.claims + [c])
  {
    forall i | 0 <= i < |s.claims| && s.claims[i].id == c.id
      ensures c.recurrence == s.claims[i].recurrence > 0 && c.time >= s.claims[i].time + c.recurrence
    {
      assert Waits(t, s.claims[i]);
    }
  }

  /** Every operation keeps the invariant. */
  lemma StepKeeps(s: State, e: Timed)
    requires Inv(s) && Enabled(s, e)
    ensures Inv(Step(s, e))
  {
    hide Inv, Trim;
    match e.event
    case Submit(_, _) => SubmitKeeps(s, e);
    case ClaimNext => ClaimKeeps(s, e);
    case Complete(id, result) =>
      var i := IndexOf(s.tasks, id);
      if i.Some? { ReplaceKeeps(s, i.value, Completed(s.tasks[i.value], e.now, result), e.now); }
      TimePasses(s, e.now);
      InFlightIsFree(Step(s, e), s.inFlight);
    case Fail(id, error) =>
      var i := IndexOf(s.tasks, id);
      if i.Some? { ReplaceKeeps(s, i.value, FailedRun(s.tasks[i.value], e.now, error), e.now); }
      TimePasses(s, e.now);
      InFlightIsFree(Step(s, e), s.inFlight);
    case Cancel(id) =>
      var i := IndexOf(s.tasks, id);
      if i.Some? { ReplaceKeeps(s, i.value, CancelTask(s.tasks[i.value], e.now), e.now); }
      TimePasses(s, e.now);
  }

  lemma TimePasses(s: State, now: int)
    requires Inv(s) && s.clock <= now
    ensures Inv(s.(clock := now))
  {
  }

  lemma InFlightIsFree(s: State, inFlight: Option<string>)
    ensures Inv(s.(inFlight := inFlight)) ==> Inv(s)
  {
  }

  lemma {:induction false} RunKeeps(s: State, run: seq<Timed>)
    requires Inv(s) && Valid(s, run)
    ensures Inv(Run(s, run))
    decreases |run|
  {
    if run != [] {
      StepKeeps(s, run[0]);
      RunKeeps(Step(s, run[0]), run[1..]);
    }
  }

  // ---- recurring tasks are spaced, one-shot tasks run once ----------------------------------

  /** The times at which `id` was claimed, in order. */
  function ClaimTimes(claims: seq<ClaimRecord>, id: string): seq<int> {
    if claims == [] then []
    else
      var last := claims[|claims| - 1];
      ClaimTimes(claims[..|claims| - 1], id) + (if last.id == id then [last.time] else [])
  }

  lemma {:induction false} TimesAreClaims(claims: seq<ClaimRecord>, id: string, k: nat) returns (i: nat)
    requires k < |ClaimTimes(claims, id)|
    ensures i < |claims| && claims[i].id == id && claims[i].time == ClaimTimes(claims, id)[k]
  {
    var before := claims[..|claims| - 1];
    if k < |ClaimTimes(before, id)| {
      i := TimesAreClaims(before, id, k);
    } else {
      i := |claims| - 1;
    }
  }

  lemma {:induction false} KthClaimTime(claims: seq<ClaimRecord>, id: string, recurrence: int, k: nat)
    requires Spaced(claims) && k < |ClaimTimes(claims, id)|
    requires forall c | c in claims && c.id == id :: c.recurrence == recurrence
    ensures ClaimTimes(claims, id)[k] >= ClaimTimes(claims, id)[0] + k * recurrence
    decreases |claims|
  {
    hide Spaced;
    var before := claims[..|claims| - 1];
    var times := ClaimTimes(before, id);
    SpacedPrefix(claims);
    if k < |times| {
      KthClaimTime(before, id, recurrence, k);
    } else if k > 0 {
      KthClaimTime(before, id, recurrence, k - 1);
      var i := TimesAreClaims(before, id, k - 1);
      LastIsSpaced(claims, i);
      assert claims[i] in claims;
      assert k * recurrence == (k - 1) * recurrence + recurrence;
    }
  }

  lemma SpacedPrefix(claims: seq<ClaimRecord>)
    requires claims != [] && Spaced(claims)
    ensures Spaced(claims[..|claims| - 1])
  {
  }

  lemma LastIsSpaced(claims: seq<ClaimRecord>, i: nat)
    requires Spaced(claims) && i < |claims| - 1 && claims[i].id == claims[|claims| - 1].id
    ensures claims[|claims| - 1].time >= claims[i].time + claims[i].recurrence
  {
  }

  lemma {:induction false} TimesAreCounted(claims: seq<ClaimRecord>, id: string)
    ensures |ClaimTimes(claims, id)| == CountClaims(claims, id)
  {
    if claims != [] {
      TimesAreCounted(claims[..|claims| - 1], id);
    }
  }

  /** In every run, whatever completes or fails when: the k-th claim of a recurring task comes at
      least k-1 recurrences after its first, so its run count is bounded by the time passed. */
  lemma RecurringRunsAreSpaced(start: int, run: seq<Timed>, t: Task, k: nat)
    requires Valid(Start(start), run)
    requires t in Run(Start(start), run).tasks && t.recurrence > 0
    ensures var end := Run(Start(start), run);
      var times := ClaimTimes(end.claims, t.id);
      && t.runCount == |times|
      && (k < |times| ==> times[k] >= times[0] + k * t.recurrence)
      && (times != [] ==> (t.runCount - 1) * t.recurrence <= end.clock - times[0])
  {
    hide Spaced, CountClaims, ClaimTimes;
    var end := Run(Start(start), run);
    StartsWell(start);
    RunKeeps(Start(start), run);
    TimesAreCounted(end.claims, t.id);
    var times := ClaimTimes(end.claims, t.id);
    if k < |times| {
      KthClaimTime(end.claims, t.id, t.recurrence, k);
    }
    if times != [] {
      KthClaimTime(end.claims, t.id, t.recurrence, |times| - 1);
      var i := TimesAreClaims(end.claims, t.id, |times| - 1);
      assert end.claims[i] in end.claims;
    }
  }

  lemma StartsWell(start: int)
    ensures Inv(Start(start))
  {
  }

  /** In every run no one-shot task is claimed twice. */
  lemma OneShotRunsOnce(start: int, run: seq<Timed>, i: nat, j: nat)
    requires Valid(Start(start), run)
    requires i < j < |Run(Start(start), run).claims|
    requires Run(Start(start), run).claims[i].recurrence <= 0
    ensures Run(Start(start), run).claims[i].id != Run(Start(start), run).claims[j].id
  {
    StartsWell(start);
    RunKeeps(Start(start), run);
  }

  // ---- a due task is not kept waiting by one-shot tasks -------------------------------------

  /** `id` is due, no recurring task stands before it, and this many pending ones do. */
  function Waiting(ts: seq<Task>, id: string, now: int): Option<nat> {
    if ts == [] then None
    else if ts[0].id == id then if IsDue(ts[0], now) then Some(0) else None
    else if ts[0].recurrence > 0 then None
    else match Waiting(ts[1..], id, now)
      case None => None
      case Some(n) => Some(n + if ts[0].status.Pending? then 1 else 0)
  }

  lemma {:induction false} WaitingLater(ts: seq<Task>, id: string, now: int, later: int)
    requires Waiting(ts, id, now).Some? && now <= later
    ensures Waiting(ts, id, later) == Waiting(ts, id, now)
  {
    if ts[0].id != id {
      WaitingLater(ts[1..], id, now, later);
    }
  }

  lemma {:induction false} WaitingWithout(ts: seq<Task>, id: string, now: int, i: nat)
    requires Waiting(ts, id, now).Some? && FirstTerminal(ts) == Some(i)
    ensures Waiting(ts[..i] + ts[i + 1..], id, now) == Waiting(ts, id, now)
  {
    var rest := ts[..i] + ts[i + 1..];
    if i == 0 {
      assert rest == ts[1..];
    } else {
      assert rest[0] == ts[0] && rest[1..] == ts[1..][..i - 1] + ts[1..][i..];
      if ts[0].id != id {
        WaitingWithout(ts[1..], id, now, i - 1);
      }
    }
  }

  lemma {:induction false} WaitingTrimmed(ts: seq<Task>, id: string, now: int)
    requires Waiting(ts, id, now).Some?
    ensures Waiting(Trim(ts), id, now) == Waiting(ts, id, now)
    decreases |ts|
  {
    hide Waiting;
    var first := FirstTerminal(ts);
    if |ts| > MAX_HISTORY_ENTRIES && first.Some? {
      WaitingWithout(ts, id, now, first.value);
      WaitingTrimmed(ts[..first.value] + ts[first.value + 1..], id, now);
    }
  }

  lemma {:induction false} WaitingAppended(ts: seq<Task>, t: Task, id: string, now: int)
    requires Waiting(ts, id, now).Some?
    ensures Waiting(ts + [t], id, now) == Waiting(ts, id, now)
  {
    assert (ts + [t])[1..] == ts[1..] + [t];
    if ts[0].id != id {
      WaitingAppended(ts[1..], t, id, now);
    }
  }

  /** Another task's operation other than a claim lets no one in ahead. */
  lemma {:induction false} WaitingReplaced(ts: seq<Task>, i: nat, u: Task, id: string, now: int)
    requires Waiting(ts, id, now).Some? && i < |ts| && ts[i].id != id
    requires u.id == ts[i].id && u.recurrence == ts[i].recurrence
    requires u.recurrence <= 0 ==> !u.status.Pending?
    ensures Waiting(ts[i := u], id, now).Some? && Waiting(ts[i := u], id, now).value <= Waiting(ts, id, now).value
  {
    var us := ts[i := u];
    if ts[0].id != id {
      if i == 0 {
        assert us[1..] == ts[1..];
      } else {
        assert us[1..] == ts[1..][i - 1 := u];
        WaitingReplaced(ts[1..], i - 1, u, id, now);
      }
    }
  }

  /** While the task waits there is something to claim: itself, or a one-shot task before it. */
  lemma {:induction false} WaitingClaimed(ts: seq<Task>, id: string, now: int)
    requires Waiting(ts, id, now).Some?
    ensures var next := NextDue(ts, now);
      && next.Some?
      && (ts[next.value].id != id ==>
        Waiting(AfterClaim(ts, now), id, now).Some?
        && Waiting(AfterClaim(ts, now), id, now).value == Waiting(ts, id, now).value - 1)
  {
    if ts[0].id != id && !IsDue(ts[0], now) {
      WaitingClaimed(ts[1..], id, now);
      var i := NextDue(ts[1..], now).value;
      assert ts[i + 1 := Claim(ts[i + 1], now)][1..] == ts[1..][i := Claim(ts[1..][i], now)];
    } else if ts[0].id != id {
      assert ts[0 := Claim(ts[0], now)][1..] == ts[1..];
    }
  }

  /** The event does not finish or cancel `id`. */
  predicate LeavesAlone(e: Event, id: string) {
    match e
    case Complete(other, _) => other != id
    case Fail(other, _) => other != id
    case Cancel(other) => other != id
    case _ => true
  }

  predicate Claims(s: State, e: Timed, id: string) {
    e.event.ClaimNext? && NextDue(s.tasks, e.now).Some? && s.tasks[NextDue(s.tasks, e.now).value].id == id
  }

  /** Each event leaves the task waiting behind no more than before; a claim of another task
      leaves it behind one fewer. */
  lemma WaitingStep(s: State, e: Timed, id: string)
    requires Waiting(s.tasks, id, s.clock).Some? && Enabled(s, e) && LeavesAlone(e.event, id) && !Claims(s, e, id)
    ensures var after := Waiting(Step(s, e).tasks, id, e.now);
      && after.Some?
      && after.value + |Step(s, e).claims| <= Waiting(s.tasks, id, s.clock).value + |s.claims|
  {
    hide Waiting, Trim;
    WaitingLater(s.tasks, id, s.clock, e.now);
    match e.event
    case Submit(task, newId) =>
      var t := task.(id := newId, createdAt := e.now, updatedAt := e.now);
      WaitingAppended(s.tasks, t, id, e.now);
      WaitingTrimmed(s.tasks + [t], id, e.now);
      assert Step(s, e).tasks == Trim(s.tasks + [t]);
    case ClaimNext => WaitingClaimed(s.tasks, id, e.now);
    case Complete(other, result) =>
      var i := IndexOf(s.tasks, other);
      if i.Some? { WaitingAfter(s.tasks, i.value, Completed(s.tasks[i.value], e.now, result), id, e.now); }
    case Fail(other, error) =>
      var i := IndexOf(s.tasks, other);
      if i.Some? { WaitingAfter(s.tasks, i.value, FailedRun(s.tasks[i.value], e.now, error), id, e.now); }
    case Cancel(other) =>
      var i := IndexOf(s.tasks, other);
      if i.Some? { WaitingAfter(s.tasks, i.value, CancelTask(s.tasks[i.value], e.now), id, e.now); }
  }

  lemma WaitingAfter(ts: seq<Task>, i: nat, u: Task, id: string, now: int)
    requires Waiting(ts, id, now).Some? && i < |ts| && ts[i].id != id
    requires u.id == ts[i].id && u.recurrence == ts[i].recurrence
    requires u.recurrence <= 0 ==> !u.status.Pending?
    ensures Waiting(Trim(ts[i := u]), id, now).Some?
    ensures Waiting(Trim(ts[i := u]), id, now).value <= Waiting(ts, id, now).value
  {
    WaitingReplaced(ts, i, u, id, now);
    WaitingTrimmed(ts[i := u], id, now);
  }

  /** No event of the run finishes, cancels or claims `id`. */
  predicate PassesOver(s: State, run: seq<Timed>, id: string)
    decreases |run|
  {
    run == [] || (LeavesAlone(run[0].event, id) && !Claims(s, run[0], id) && PassesOver(Step(s, run[0]), run[1..], id))
  }

  /** A due task with n pending one-shot tasks and no recurring task before it can be passed over
      by at most n successful claims: the next one claims it. */
  lemma {:induction false} DueTaskIsReached(s: State, run: seq<Timed>, id: string)
    requires Valid(s, run) && PassesOver(s, run, id) && Waiting(s.tasks, id, s.clock).Some?
    ensures |Run(s, run).claims| - |s.claims| <= Waiting(s.tasks, id, s.clock).value
    ensures NextDue(Run(s, run).tasks, Run(s, run).clock).Some?
    decreases |run|
  {
    hide Waiting;
    if run == [] {
      WaitingClaimed(s.tasks, id, s.clock);
    } else {
      WaitingStep(s, run[0], id);
      DueTaskIsReached(Step(s, run[0]), run[1..], id);
    }
  }

  // ---- what cancelling stops ----------------------------------------------------------------

  /** The host's one task loop: it claims when nothing is in flight and completes or fails only
      the task it claimed last. Submissions and cancellations may come in between. */
  predicate FromTick(s: State, e: Event) {
    match e
    case ClaimNext => s.inFlight.None?
    case Complete(id, _) => s.inFlight == Some(id)
    case Fail(id, _) => s.inFlight == Some(id)
    case _ => true
  }

  predicate Ticking(s: State, run: seq<Timed>)
    decreases |run|
  {
    run == [] || (Enabled(s, run[0]) && FromTick(s, run[0].event) && Ticking(Step(s, run[0]), run[1..]))
  }

  /** `id` is not pending, and no run in flight can make it pending again. */
  predicate Stopped(s: State, id: string) {
    id in s.usedIds && forall t | t in s.tasks && t.id == id ::
      !t.status.Pending? && (s.inFlight == Some(id) ==> t.recurrence <= 0)
  }

  lemma StoppedReplaced(ts: seq<Task>, i: nat, u: Task, id: string)
    requires i < |ts| && u.id == ts[i].id && u.recurrence == ts[i].recurrence
    ensures forall t | t in Trim(ts[i := u]) :: t in ts || t == u
  {
    TrimKeeps(ts[i := u]);
  }

  lemma StoppedStep(s: State, e: Timed, id: string)
    requires Stopped(s, id) && Enabled(s, e) && FromTick(s, e.event)
    ensures Stopped(Step(s, e), id) && !Claims(s, e, id)
  {
    hide Trim;
    match e.event
    case Submit(task, newId) =>
      TrimKeeps(s.tasks + [task.(id := newId, createdAt := e.now, updatedAt := e.now)]);
    case ClaimNext =>
      var next := NextDue(s.tasks, e.now);
      if next.Some? {
        assert s.tasks[next.value] in s.tasks;
      }
    case Complete(other, result) =>
      var i := IndexOf(s.tasks, other);
      if i.Some? {
        assert s.tasks[i.value] in s.tasks;
        StoppedReplaced(s.tasks, i.value, Completed(s.tasks[i.value], e.now, result), id);
      }
    case Fail(other, error) =>
      var i := IndexOf(s.tasks, other);
      if i.Some? {
        assert s.tasks[i.value] in s.tasks;
        StoppedReplaced(s.tasks, i.value, FailedRun(s.tasks[i.value], e.now, error), id);
      }
    case Cancel(other) =>
      var i := IndexOf(s.tasks, other);
      if i.Some? {
        assert s.tasks[i.value] in s.tasks;
        StoppedReplaced(s.tasks, i.value, CancelTask(s.tasks[i.value], e.now), id);
      }
  }

  /** Once stopped, a task is never pending and never claimed again. */
  lemma {:induction false} StoppedForGood(s: State, run: seq<Timed>, id: string)
    requires Stopped(s, id) && Ticking(s, run)
    ensures Stopped(Run(s, run), id)
    ensures |Run(s, run).claims| >= |s.claims|
    ensures forall k | |s.claims| <= k < |Run(s, run).claims| :: Run(s, run).claims[k].id != id
    ensures Run(s, run).claims[..|s.claims|] == s.claims
    decreases |run|
  {
    hide Stopped;
    if run == [] {
      assert s.claims[..|s.claims|] == s.claims;
    } else {
      var next := Step(s, run[0]);
      StoppedStep(s, run[0], id);
      StoppedForGood(next, run[1..], id);
      ClaimsGrow(s, run[0], id);
      var end := Run(next, run[1..]).claims;
      assert end[..|s.claims|] == end[..|next.claims|][..|s.claims|];
      forall k | |s.claims| <= k < |next.claims| ensures end[k].id != id {
        assert end[k] == end[..|next.claims|][k];
      }
    }
  }

  lemma ClaimsGrow(s: State, e: Timed, id: string)
    requires !Claims(s, e, id)
    ensures var cs := Step(s, e).claims;
      |cs| >= |s.claims| && cs[..|s.claims|] == s.claims && forall k | |s.claims| <= k < |cs| :: cs[k].id != id
  {
    assert Step(s, e).claims[..|s.claims|] == s.claims;
  }

  /** Cancelling succeeds only for a pending or running task, and leaves it cancelled. */
  lemma CancelStops(s: State, e: Timed, id: string)
    requires Inv(s) && Enabled(s, e) && e.event == Cancel(id) && CanCancel(s.tasks, id)
    ensures forall t | t in Step(s, e).tasks && t.id == id :: t.status.Cancelled?
    ensures id in Step(s, e).usedIds
  {
    hide Trim, Spaced, CountClaims;
    var i := IndexOf(s.tasks, id).value;
    var us := s.tasks[i := CancelTask(s.tasks[i], e.now)];
    TrimKeeps(us);
    assert s.tasks[i] in s.tasks;
    forall t | t in Step(s, e).tasks && t.id == id ensures t.status.Cancelled? {
      var k :| 0 <= k < |us| && us[k] == t;
      assert k == i;
    }
  }

  /** Completing a cancelled recurring task puts it back to pending. */
  lemma CompletionRevives(s: State, id: string, t: Task)
    requires Distinct(s.tasks) && t in s.tasks && t.id == id && t.recurrence > 0
    ensures exists u :: u in Step(s, Timed(Complete(id, ""), s.clock)).tasks && u.id == id && u.status.Pending?
  {
    hide Trim;
    var i := IndexOf(s.tasks, id).value;
    var k :| 0 <= k < |s.tasks| && s.tasks[k] == t;
    assert k == i;
    var u := Completed(t, s.clock, "");
    var us := s.tasks[i := u];
    TrimKeeps(us);
    assert us[i] == u;
    assert u in Trim(us);
  }

  /** Cancelling stops a task for good, except exactly when the task is the one in flight, is
      recurring, and survives the trimming: its completion or failure then schedules it again. */
  lemma CancelledExceptInFlight(s: State, e: Timed, id: string)
    requires Inv(s) && Enabled(s, e) && e.event == Cancel(id) && CanCancel(s.tasks, id)
    ensures var after := Step(s, e);
      (exists run :: Ticking(after, run) && exists t :: t in Run(after, run).tasks && t.id == id && t.status.Pending?)
      <==> after.inFlight == Some(id) && exists t :: t in after.tasks && t.id == id && t.recurrence > 0
  {
    hide Trim, Inv, Run, Ticking;
    var after := Step(s, e);
    CancelStops(s, e, id);
    if after.inFlight == Some(id) && exists t :: t in after.tasks && t.id == id && t.recurrence > 0 {
      var t :| t in after.tasks && t.id == id && t.recurrence > 0;
      StepKeeps(s, e);
      InvIsDistinct(after);
      CompletionRevives(after, id, t);
      OneStep(after, Timed(Complete(id, ""), after.clock));
    } else {
      assert Stopped(after, id);
      forall run | Ticking(after, run)
        ensures !exists t :: t in Run(after, run).tasks && t.id == id && t.status.Pending?
      {
        StoppedForGood(after, run, id);
      }
    }
  }

  lemma InvIsDistinct(s: State)
    requires Inv(s)
    ensures Distinct(s.tasks)
  {
  }

  lemma OneStep(s: State, e: Timed)
    requires Enabled(s, e) && FromTick(s, e.event)
    ensures Ticking(s, [e]) && Run(s, [e]) == Step(s, e)
  {
    assert [e][1..] == [];
    assert Ticking(Step(s, e), []);
    assert Run(Step(s, e), []) == Step(s, e);
  }

  // ---- bounded history ---------------------------------------------------------------------

  predicate Bounded(ts: seq<Task>) {
    |ts| <= MAX_HISTORY_ENTRIES || forall i | 0 <= i < |ts| :: !IsTerminal(ts[i])
  }

  lemma {:induction false} TrimIsBounded(ts: seq<Task>)
    ensures Bounded(Trim(ts))
    decreases |ts|
  {
    hide Bounded;
    var first := FirstTerminal(ts);
    if |ts| > MAX_HISTORY_ENTRIES && first.Some? {
      TrimIsBounded(ts[..first.value] + ts[first.value + 1..]);
    } else {
      NothingToTrim(ts);
    }
  }

  lemma NothingToTrim(ts: seq<Task>)
    requires |ts| <= MAX_HISTORY_ENTRIES || FirstTerminal(ts).None?
    ensures Trim(ts) == ts && Bounded(ts)
  {
  }

  lemma StepIsBounded(s: State, e: Timed)
    requires Bounded(s.tasks)
    ensures Bounded(Step(s, e).tasks)
  {
    hide Trim;
    match e.event
    case Submit(task, id) =>
      TrimIsBounded(s.tasks + [task.(id := id).(createdAt := e.now, updatedAt := e.now)]);
    case ClaimNext =>
    case Complete(id, result) =>
      var i := IndexOf(s.tasks, id);
      if i.Some? { TrimIsBounded(s.tasks[i.value := Completed(s.tasks[i.value], e.now, result)]); }
    case Fail(id, error) =>
      var i := IndexOf(s.tasks, id);
      if i.Some? { TrimIsBounded(s.tasks[i.value := FailedRun(s.tasks[i.value], e.now, error)]); }
    case Cancel(id) =>
      if CanCancel(s.tasks, id) {
        var i := IndexOf(s.tasks, id).value;
        TrimIsBounded(s.tasks[i := CancelTask(s.tasks[i], e.now)]);
      }
  }

  /** In every reachable state the queue has at most 256 entries or holds no ended task. */
  lemma {:induction false} HistoryStaysBounded(s: State, run: seq<Timed>)
    requires Bounded(s.tasks)
    ensures Bounded(Run(s, run).tasks)
    decreases |run|
  {
    hide Bounded, Step;
    if run != [] {
      StepIsBounded(s, run[0]);
      HistoryStaysBounded(Step(s, run[0]), run[1..]);
    }
  }

  /** The queue still holds `id`, waiting or running. */
  predicate IsLive(ts: seq<Task>, id: string) {
    exists i :: 0 <= i < |ts| && ts[i].id == id && !IsTerminal(ts[i])
  }

  lemma TrimKeepsLive(ts: seq<Task>, i: nat)
    requires i < |ts| && !IsTerminal(ts[i])
    ensures IsLive(Trim(ts), ts[i].id)
  {
    TrimKeeps(ts);
    assert ts[i] in Trim(ts);
  }

  lemma LiveStep(s: State, e: Timed, id: string)
    requires IsLive(s.tasks, id) && LeavesAlone(e.event, id)
    ensures IsLive(Step(s, e).tasks, id)
  {
    hide Trim;
    var k :| 0 <= k < |s.tasks| && s.tasks[k].id == id && !IsTerminal(s.tasks[k]);
    match e.event
    case Submit(task, newId) =>
      TrimKeepsLive(s.tasks + [task.(id := newId).(createdAt := e.now, updatedAt := e.now)], k);
    case ClaimNext =>
      var next := NextDue(s.tasks, e.now);
      if next.Some? { assert AfterClaim(s.tasks, e.now)[k].id == id; }
    case Complete(other, result) =>
      var i := IndexOf(s.tasks, other);
      if i.Some? { TrimKeepsLive(s.tasks[i.value := Completed(s.tasks[i.value], e.now, result)], k); }
    case Fail(other, error) =>
      var i := IndexOf(s.tasks, other);
      if i.Some? { TrimKeepsLive(s.tasks[i.value := FailedRun(s.tasks[i.value], e.now, error)], k); }
    case Cancel(other) =>
      if CanCancel(s.tasks, other) {
        var i := IndexOf(s.tasks, other).value;
        TrimKeepsLive(s.tasks[i := CancelTask(s.tasks[i], e.now)], k);
      }
  }

  /** A waiting or running task is never lost: it leaves only by being finished or cancelled itself. */
  lemma {:induction false} LiveTasksAreKept(s: State, run: seq<Timed>, id: string)
    requires IsLive(s.tasks, id)
    requires forall i | 0 <= i < |run| :: LeavesAlone(run[i].event, id)
    ensures IsLive(Run(s, run).tasks, id)
    decreases |run|
  {
    hide IsLive, Step, LeavesAlone;
    if run != [] {
      LiveStep(s, run[0], id);
      assert forall i | 0 <= i < |run| - 1 :: run[1..][i] == run[i + 1];
      LiveTasksAreKept(Step(s, run[0]), run[1..], id);
    }
  }

  // ---- cancelling, from the start of the host -----------------------------------------------

  /** Under the task loop the running task is the one in flight, and a waiting task is not. */
  predicate LoopInv(s: State) {
    && Bounded(s.tasks)
    && (s.inFlight.Some? ==> s.inFlight.value in s.usedIds)
    && (forall t | t in s.tasks :: Sorted(t, s.inFlight))
  }

  predicate Sorted(t: Task, inFlight: Option<string>) {
    && (t.status.Running? ==> inFlight == Some(t.id))
    && (t.status.Pending? ==> inFlight != Some(t.id))
  }

  lemma ReplacedIsSorted(ts: seq<Task>, i: nat, u: Task, before: Option<string>, after: Option<string>)
    requires i < |ts| && Distinct(ts) && u.id == ts[i].id && Sorted(u, after)
    requires forall t | t in ts :: Sorted(t, before)
    requires before == after || (before == Some(u.id) && after.None?)
    ensures forall t | t in Trim(ts[i := u]) :: Sorted(t, after)
  {
    hide Trim;
    TrimKeeps(ts[i := u]);
    forall t | t in Trim(ts[i := u]) ensures Sorted(t, after) {
      var k :| 0 <= k < |ts| && ts[i := u][k] == t;
      if k != i {
        assert t in ts && t.id != u.id;
      }
    }
  }

  lemma LoopStep(s: State, e: Timed)
    requires Inv(s) && LoopInv(s) && Enabled(s, e) && FromTick(s, e.event)
    ensures LoopInv(Step(s, e))
  {
    hide Trim, Inv, Bounded, Sorted;
    StepIsBounded(s, e);
    InvIsDistinct(s);
    InvKnowsIds(s);
    match e.event
    case Submit(task, id) =>
      var t := task.(id := id, createdAt := e.now, updatedAt := e.now);
      TrimKeeps(s.tasks + [t]);
      NewIsSorted(t, s.inFlight);
    case ClaimNext =>
      var next := NextDue(s.tasks, e.now);
      if next.Some? {
        ClaimIsSorted(s, next.value, e.now);
      }
    case Complete(id, result) =>
      var i := IndexOf(s.tasks, id);
      if i.Some? {
        var u := Completed(s.tasks[i.value], e.now, result);
        EndedIsSorted(u);
        ReplacedIsSorted(s.tasks, i.value, u, s.inFlight, None);
      } else {
        OthersStaySorted(s, id);
      }
    case Fail(id, error) =>
      var i := IndexOf(s.tasks, id);
      if i.Some? {
        var u := FailedRun(s.tasks[i.value], e.now, error);
        EndedIsSorted(u);
        ReplacedIsSorted(s.tasks, i.value, u, s.inFlight, None);
      } else {
        OthersStaySorted(s, id);
      }
    case Cancel(id) =>
      if CanCancel(s.tasks, id) {
        var i := IndexOf(s.tasks, id).value;
        var u := CancelTask(s.tasks[i], e.now);
        CancelledIsSorted(u, s.inFlight);
        ReplacedIsSorted(s.tasks, i, u, s.inFlight, s.inFlight);
      }
  }

  lemma InvKnowsIds(s: State)
    requires Inv(s)
    ensures forall t | t in s.tasks :: t.id in s.usedIds
  {
  }

  lemma NewIsSorted(t: Task, inFlight: Option<string>)
    requires t.status.Pending? && inFlight != Some(t.id)
    ensures Sorted(t, inFlight)
  {
  }

  lemma EndedIsSorted(u: Task)
    requires !u.status.Running?
    ensures Sorted(u, None)
  {
  }

  lemma CancelledIsSorted(u: Task, inFlight: Option<string>)
    requires u.status.Cancelled?
    ensures Sorted(u, inFlight)
  {
  }

  lemma OthersStaySorted(s: State, id: string)
    requires IndexOf(s.tasks, id).None? && s.inFlight == Some(id)
    requires forall t | t in s.tasks :: Sorted(t, s.inFlight)
    ensures forall t | t in s.tasks :: Sorted(t, None)
  {
  }

  lemma ClaimIsSorted(s: State, i: nat, now: int)
    requires i < |s.tasks| && Distinct(s.tasks) && s.inFlight.None?
    requires forall t | t in s.tasks :: Sorted(t, None)
    ensures forall t | t in s.tasks[i := Claim(s.tasks[i], now)] :: Sorted(t, Some(s.tasks[i].id))
  {
    var us := s.tasks[i := Claim(s.tasks[i], now)];
    forall t | t in us ensures Sorted(t, Some(s.tasks[i].id)) {
      var k :| 0 <= k < |us| && us[k] == t;
      if k != i {
        assert t in s.tasks && t.id != s.tasks[i].id;
      }
    }
  }

  lemma {:induction false} LoopRun(s: State, run: seq<Timed>)
    requires Inv(s) && LoopInv(s) && Ticking(s, run)
    ensures Inv(Run(s, run)) && LoopInv(Run(s, run))
    decreases |run|
  {
    hide Inv, LoopInv, FromTick, Enabled, Step;
    if run != [] {
      StepKeeps(s, run[0]);
      LoopStep(s, run[0]);
      LoopRun(Step(s, run[0]), run[1..]);
    }
  }

  /** The state after any run of the task loop since the host started. */
  lemma LoopReaches(start: int, run: seq<Timed>)
    requires Ticking(Start(start), run)
    ensures Inv(Run(Start(start), run)) && LoopInv(Run(Start(start), run))
  {
    StartsWell(start);
    LoopRun(Start(start), run);
  }

  /** A task cancelled while it waits is never claimed again. */
  lemma CancelledWhilePending(start: int, before: seq<Timed>, e: Timed, id: string, later: seq<Timed>)
    requires Ticking(Start(start), before)
    requires var s := Run(Start(start), before);
      && Enabled(s, e) && e.event == Cancel(id) && Ticking(Step(s, e), later)
      && exists t :: t in s.tasks && t.id == id && t.status.Pending?
    ensures var s := Run(Start(start), before);
      var end := Run(Step(s, e), later);
      && CanCancel(s.tasks, id)
      && (forall t | t in end.tasks && t.id == id :: !t.status.Pending?)
      && (forall k | |s.claims| <= k < |end.claims| :: end.claims[k].id != id)
  {
    hide Trim, Inv, Run, Ticking;
    LoopReaches(start, before);
    var s := Run(Start(start), before);
    InvIsDistinct(s);
    FoundByItsId(s.tasks, id);
    CancelStops(s, e, id);
    assert Stopped(Step(s, e), id);
    StoppedForGood(Step(s, e), later, id);
  }

  lemma FoundByItsId(ts: seq<Task>, id: string)
    requires Distinct(ts) && exists t :: t in ts && t.id == id
    ensures IndexOf(ts, id).Some? && forall t | t in ts && t.id == id :: t == ts[IndexOf(ts, id).value]
  {
    var t :| t in ts && t.id == id;
    var k :| 0 <= k < |ts| && ts[k] == t;
    var i := IndexOf(ts, id).value;
    forall u | u in ts && u.id == id ensures u == ts[i] {
      var j :| 0 <= j < |ts| && ts[j] == u;
      assert i == j;
    }
  }

  /** A cancelled task stays in the queue exactly when there is nothing to trim: over 256 entries
      it is the only ended task, and so the one to go. */
  lemma CancelledStays(ts: seq<Task>, i: nat, now: int)
    requires i < |ts| && Distinct(ts) && Bounded(ts) && !IsTerminal(ts[i])
    ensures var rest := Trim(ts[i := CancelTask(ts[i], now)]);
      && (|ts| <= MAX_HISTORY_ENTRIES ==> CancelTask(ts[i], now) in rest)
      && (|ts| > MAX_HISTORY_ENTRIES ==> forall t | t in rest :: t.id != ts[i].id)
  {
    var u := CancelTask(ts[i], now);
    var us := ts[i := u];
    assert us[i] == u;
    if |ts| > MAX_HISTORY_ENTRIES {
      var rest := us[..i] + us[i + 1..];
      assert rest == ts[..i] + ts[i + 1..];
      OnlyTerminal(us, i);
      RemoveOnly(us, i);
      assert forall k | 0 <= k < |rest| :: rest[k] == ts[if k < i then k else k + 1];
    }
  }

  lemma OnlyTerminal(us: seq<Task>, i: nat)
    requires i < |us| && IsTerminal(us[i])
    requires forall k | 0 <= k < |us| && k != i :: !IsTerminal(us[k])
    ensures FirstTerminal(us) == Some(i)
    ensures FirstTerminal(us[..i] + us[i + 1..]).None?
  {
  }

  lemma RemoveOnly(us: seq<Task>, i: nat)
    requires i < |us| && |us| > MAX_HISTORY_ENTRIES && FirstTerminal(us) == Some(i)
    requires FirstTerminal(us[..i] + us[i + 1..]).None?
    ensures Trim(us) == us[..i] + us[i + 1..]
  {
  }

  /** The queue holds `id`, pending. */
  predicate IsPendingIn(ts: seq<Task>, id: string) {
    exists u :: u in ts && u.id == id && u.status.Pending?
  }

  /** Cancelling is undone by a later run of the task loop if and only if the task is running,
      is recurring, and the queue holds no more than 256 entries. */
  lemma CancelUndoneExactly(start: int, before: seq<Timed>, e: Timed, id: string)
    requires Ticking(Start(start), before)
    requires var s := Run(Start(start), before);
      Enabled(s, e) && e.event == Cancel(id) && CanCancel(s.tasks, id)
    ensures var s := Run(Start(start), before);
      var t := s.tasks[IndexOf(s.tasks, id).value];
      (exists later :: Ticking(Step(s, e), later) && IsPendingIn(Run(Step(s, e), later).tasks, id))
      <==> t.status.Running? && t.recurrence > 0 && |s.tasks| <= MAX_HISTORY_ENTRIES
  {
    hide Trim, Inv, Run, Ticking, Bounded;
    LoopReaches(start, before);
    var s := Run(Start(start), before);
    var i := IndexOf(s.tasks, id).value;
    var t := s.tasks[i];
    assert t in s.tasks;
    InvIsDistinct(s);
    CancelledExceptInFlight(s, e, id);
    assert Sorted(t, s.inFlight);
    assert t.status.Running? <==> s.inFlight == Some(id);
    CancelledStays(s.tasks, i, e.now);
    var after := Step(s, e);
    assert after.tasks == Trim(s.tasks[i := CancelTask(t, e.now)]);
    StepKeeps(s, e);
    InvIsDistinct(after);
    if |s.tasks| <= MAX_HISTORY_ENTRIES {
      FoundByItsId(after.tasks, id);
    }
  }

  /** Such a run exists for every recurring request: it is claimed, cancelled while it runs, and
      its completion makes it pending again although the cancellation was accepted. */
  lemma CancelledRunIsUndone(start: int, task: Task, id: string)
    requires IsRequest(task) && task.recurrence > 0 && task.scheduledFor <= start && id != ""
    ensures var before := [Timed(Submit(task, id), start), Timed(ClaimNext, start)];
      var cancel, done := Timed(Cancel(id), start), Timed(Complete(id, ""), start);
      var s := Run(Start(start), before);
      && Ticking(Start(start), before + [cancel, done])
      && CanCancel(s.tasks, id) && s.inFlight == Some(id)
      && (exists t :: Step(s, cancel).tasks == [t] && t.id == id && t.status.Cancelled?)
      && (exists t :: Step(Step(s, cancel), done).tasks == [t] && t.id == id && t.status.Pending?)
  {
    hide Trim;
    var e1, e2 := Timed(Submit(task, id), start), Timed(ClaimNext, start);
    var cancel, done := Timed(Cancel(id), start), Timed(Complete(id, ""), start);
    var t := task.(id := id, createdAt := start, updatedAt := start);
    var running := Claim(t, start);
    var cancelled := CancelTask(running, start);
    var s1, s2 := Step(Start(start), e1), Step(Step(Start(start), e1), e2);
    SmallIsKept(t, t);
    assert [] + [t] == [t];
    assert s1.tasks == [t];
    SmallIsKept(t, running);
    assert s2.tasks == [running] && s2.inFlight == Some(id);
    SmallIsKept(running, cancelled);
    var s3 := Step(s2, cancel);
    assert s3.tasks == [cancelled];
    SmallIsKept(cancelled, Completed(cancelled, start, ""));
    assert Step(s3, done).tasks == [Completed(cancelled, start, "")];
    RunTwo(Start(start), e1, e2, [cancel, done]);
    RunTwo(s2, cancel, done, []);
    assert [e1, e2] + [cancel, done] == [e1, e2, cancel, done] && [cancel, done] + [] == [cancel, done];
    assert [e1, e2] + [] == [e1, e2];
    RunTwo(Start(start), e1, e2, []);
  }

  lemma SmallIsKept(t: Task, u: Task)
    ensures [t][0 := u] == [u] && Trim([u]) == [u]
    ensures IndexOf([t], t.id) == Some(0)
  {
  }

  lemma RunTwo(s: State, a: Timed, b: Timed, rest: seq<Timed>)
    requires Enabled(s, a) && FromTick(s, a.event) && Enabled(Step(s, a), b) && FromTick(Step(s, a), b.event)
    ensures Ticking(s, [a, b] + rest) <==> Ticking(Step(Step(s, a), b), rest)
    ensures Run(s, [a, b] + rest) == Run(Step(Step(s, a), b), rest)
  {
    hide Step, Enabled, FromTick;
    var run := [a, b] + rest;
    assert run[1..] == [b] + rest && run[1..][1..] == rest;
  }

  // ---- a recurring task ahead ---------------------------------------------------------------

  /** The task loop at work at `now`, `now + step`, ...: each time one claim, completed at once. */
  function Rounds(n: nat, id: string, now: int, step: int): seq<Timed> {
    if n == 0 then []
    else [Timed(ClaimNext, now), Timed(Complete(id, ""), now)] + Rounds(n - 1, id, now + step, step)
  }

  /** A due recurring task stands in front of a due one-shot task, and nothing is in flight. */
  predicate Ahead(s: State, r: Task, t: Task, now: int) {
    && s.tasks == [r, t] && r.id != t.id && r.recurrence > 0 && IsDue(r, now) && IsDue(t, now)
    && s.clock <= now && s.inFlight.None?
  }

  lemma TwoAreKept(a: Task, b: Task, u: Task)
    ensures [a, b][0 := u] == [u, b] && Trim([u, b]) == [u, b]
    ensures IndexOf([a, b], a.id) == Some(0)
  {
  }

  lemma OneRound(s: State, r: Task, t: Task, now: int, step: int)
    requires Ahead(s, r, t, now) && step >= r.recurrence
    ensures var claim, done := Timed(ClaimNext, now), Timed(Complete(r.id, ""), now);
      var after := Step(Step(s, claim), done);
      var r' := Completed(Claim(r, now), now, "");
      && Enabled(s, claim) && FromTick(s, claim.event)
      && Enabled(Step(s, claim), done) && FromTick(Step(s, claim), done.event)
      && Ahead(after, r', t, now + step) && r'.id == r.id && r'.recurrence == r.recurrence
      && after.claims == s.claims + [ClaimRecord(r.id, now, r.recurrence)]
  {
    hide Trim;
    TwoAreKept(r, t, Claim(r, now));
    assert NextDue(s.tasks, now) == Some(0);
    var claimed := Step(s, Timed(ClaimNext, now));
    assert claimed.tasks == [Claim(r, now), t];
    TwoAreKept(Claim(r, now), t, Completed(Claim(r, now), now, ""));
  }

  /** A recurring task ahead, claimed again no sooner than its recurrence, keeps a due task waiting:
      for every number of rounds there is a run in which all claims are the recurring task's. */
  lemma {:induction false} RecurringTaskStarves(s: State, r: Task, t: Task, now: int, step: int, n: nat)
    requires Ahead(s, r, t, now) && step >= r.recurrence
    ensures var run := Rounds(n, r.id, now, step);
      var end := Run(s, run);
      && Ticking(s, run)
      && |end.tasks| == 2 && end.tasks[1] == t
      && |end.claims| == |s.claims| + n && end.claims[..|s.claims|] == s.claims
      && (forall k | |s.claims| <= k < |end.claims| :: end.claims[k].id == r.id)
    decreases n
  {
    hide Step, Trim, Enabled, FromTick;
    if n == 0 {
      assert s.claims[..|s.claims|] == s.claims;
    } else {
      OneRound(s, r, t, now, step);
      var claim, done := Timed(ClaimNext, now), Timed(Complete(r.id, ""), now);
      var after := Step(Step(s, claim), done);
      RunTwo(s, claim, done, Rounds(n - 1, r.id, now + step, step));
      RecurringTaskStarves(after, Completed(Claim(r, now), now, ""), t, now + step, step, n - 1);
      var end := Run(after, Rounds(n - 1, r.id, now + step, step));
      assert end.claims[..|s.claims|] == end.claims[..|after.claims|][..|s.claims|];
      assert end.claims[|s.claims|] == end.claims[..|after.claims|][|s.claims|];
    }
  }

  /** Such a state is reached from the start by submitting the two tasks. */
  lemma StarvationIsReachable(start: int, recurring: Task, oneShot: Task, a: string, b: string)
    requires IsRequest(recurring) && recurring.recurrence > 0 && recurring.scheduledFor <= start
    requires IsRequest(oneShot) && oneShot.scheduledFor <= start && a != "" && b != "" && a != b
    ensures var run := [Timed(Submit(recurring, a), start), Timed(Submit(oneShot, b), start)];
      var s := Run(Start(start), run);
      && Ticking(Start(start), run) && |s.tasks| == 2 && s.tasks[0].id == a && s.tasks[1].id == b
      && Ahead(s, s.tasks[0], s.tasks[1], start)
  {
    hide Trim;
    var e, f := Timed(Submit(recurring, a), start), Timed(Submit(oneShot, b), start);
    var r := recurring.(id := a, createdAt := start, updatedAt := start);
    var t := oneShot.(id := b, createdAt := start, updatedAt := start);
    SmallIsKept(r, r);
    TwoAreKept(r, t, r);
    assert [] + [r] == [r] && [r] + [t] == [r, t];
    var s1 := Step(Start(start), e);
    assert s1.tasks == [r];
    assert Step(s1, f).tasks == [r, t];
    RunTwo(Start(start), e, f, []);
    assert [e, f] + [] == [e, f];
  }
}
