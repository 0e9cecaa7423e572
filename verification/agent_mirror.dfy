/** When the in-memory transcript mirrors the stored rows of the current session. */
module AgentMirror {
  import opened ChatRoles
  import opened AgentProtocol
  import opened AgentRuns

  /** The hop indices are 0, 1, 2, ... */
  predicate Numbered(rows: seq<Row>) {
    forall i | 0 <= i < |rows| :: rows[i].hop == i
  }

  ghost predicate AllNumbered(rows: seq<Row>) {
    forall x: string :: Numbered(RowsOf(rows, x))
  }

  /** What reloading the current session would give is what is in memory, and every stored
      session is numbered from 0 without gaps or repetitions. */
  ghost predicate Mirror(w: World, s: State) {
    s.transcript == Messages(LoadSession(w, s.rows, s.current)) && AllNumbered(s.rows)
  }

  // ---- rows by session --------------------------------------------------------------------

  lemma {:induction false} RowsOfConcat(a: seq<Row>, b: seq<Row>, x: string)
    ensures RowsOf(a + b, x) == RowsOf(a, x) + RowsOf(b, x)
  {
    if b == [] {
      assert a + b == a;
    } else {
      RowsOfConcat(a, b[..|b| - 1], x);
      assert (a + b)[..|a + b| - 1] == a + b[..|b| - 1];
    }
  }

  lemma {:induction false} RowsOfOneSession(rows: seq<Row>, session: string, x: string)
    requires forall i | 0 <= i < |rows| :: rows[i].session == session
    ensures RowsOf(rows, x) == if x == session then rows else []
  {
    if rows != [] {
      RowsOfOneSession(rows[..|rows| - 1], session, x);
      assert rows == rows[..|rows| - 1] + [rows[|rows| - 1]];
    }
  }

  lemma {:induction false} RowsOfWithout(rows: seq<Row>, gone: string, x: string)
    ensures RowsOf(WithoutSession(rows, gone), x) == if x == gone then [] else RowsOf(rows, x)
  {
    if rows != [] {
      var init, last := rows[..|rows| - 1], rows[|rows| - 1];
      RowsOfWithout(init, gone, x);
      RowsOfConcat(WithoutSession(init, gone), if last.session == gone then [] else [last], x);
      RowsOfOneSession(if last.session == gone then [] else [last], last.session, x);
    }
  }

  lemma {:induction false} NumberedIsSorted(rows: seq<Row>)
    requires Numbered(rows)
    ensures SortedByHop(rows) == rows
  {
    hide InsertByHop;
    if rows != [] {
      var init, last := rows[..|rows| - 1], rows[|rows| - 1];
      NumberedIsSorted(init);
      InsertLast(init, last);
      assert rows == init + [last];
    }
  }

  lemma InsertLast(rows: seq<Row>, r: Row)
    requires rows == [] || rows[|rows| - 1].hop <= r.hop
    ensures InsertByHop(rows, r) == rows + [r]
  {
  }

  lemma LoadIsRowsOf(w: World, rows: seq<Row>, x: string)
    requires w.storeOpen && Numbered(RowsOf(rows, x))
    ensures LoadSession(w, rows, x) == RowsOf(rows, x)
  {
    NumberedIsSorted(RowsOf(rows, x));
  }

  lemma NewRowsReadBack(session: string, start: nat, msgs: seq<ChatMessage>)
    ensures Messages(NewRows(session, start, msgs)) == msgs
  {
    forall i | 0 <= i < |msgs| ensures Messages(NewRows(session, start, msgs))[i] == msgs[i] {
      RoleReadsBack(msgs[i].role);
    }
  }

  lemma MessagesConcat(a: seq<Row>, b: seq<Row>)
    ensures Messages(a + b) == Messages(a) + Messages(b)
  {
  }

  // ---- recording ----------------------------------------------------------------------------

  /** Where recording leaves the rows of each session. */
  lemma RecordedRows(w: World, s: State, t: State, session: string, msgs: seq<ChatMessage>, events: seq<Event>,
                     x: string)
    requires w.storeOpen && Did(w, s, t, session, msgs, events)
    ensures RowsOf(t.rows, x)
      == RowsOf(s.rows, x) + (if x == session then NewRows(session, |s.transcript|, msgs) else [])
  {
    RowsOfConcat(s.rows, NewRows(session, |s.transcript|, msgs), x);
    RowsOfOneSession(NewRows(session, |s.transcript|, msgs), session, x);
  }

  lemma MirrorLength(w: World, s: State)
    requires w.storeOpen && Mirror(w, s)
    ensures s.transcript == Messages(RowsOf(s.rows, s.current)) && |RowsOf(s.rows, s.current)| == |s.transcript|
  {
    LoadIsRowsOf(w, s.rows, s.current);
  }

  lemma MirrorFromRows(w: World, s: State)
    requires w.storeOpen && AllNumbered(s.rows) && s.transcript == Messages(RowsOf(s.rows, s.current))
    ensures Mirror(w, s)
  {
    LoadIsRowsOf(w, s.rows, s.current);
  }

  lemma NumberedAppend(rows: seq<Row>, session: string, msgs: seq<ChatMessage>)
    requires Numbered(rows)
    ensures Numbered(rows + NewRows(session, |rows|, msgs))
  {
  }

  lemma RecordingKeepsNumbers(w: World, s: State, t: State, msgs: seq<ChatMessage>, events: seq<Event>, x: string)
    requires w.storeOpen && Mirror(w, s) && Did(w, s, t, s.current, msgs, events)
    ensures Numbered(RowsOf(t.rows, x))
  {
    hide Did, RowsOf, Numbered;
    MirrorLength(w, s);
    RecordedRows(w, s, t, s.current, msgs, events, x);
    assert Numbered(RowsOf(s.rows, x));
    if x == s.current {
      NumberedAppend(RowsOf(s.rows, x), x, msgs);
    } else {
      assert RowsOf(s.rows, x) + [] == RowsOf(s.rows, x);
    }
  }

  lemma RecordingHereMirrors(w: World, s: State, t: State, msgs: seq<ChatMessage>, events: seq<Event>)
    requires w.storeOpen && Mirror(w, s) && Did(w, s, t, s.current, msgs, events)
    ensures Mirror(w, t)
  {
    hide RowsOf, Numbered, Mirror;
    forall x: string ensures Numbered(RowsOf(t.rows, x)) {
      RecordingKeepsNumbers(w, s, t, msgs, events, x);
    }
    MirrorLength(w, s);
    var stored := RowsOf(s.rows, s.current);
    var more := NewRows(s.current, |stored|, msgs);
    RecordedRows(w, s, t, s.current, msgs, events, s.current);
    MessagesConcat(stored, more);
    NewRowsReadBack(s.current, |stored|, msgs);
    MirrorFromRows(w, t);
  }

  lemma RecordingElsewhereBreaks(w: World, s: State, t: State, session: string, msgs: seq<ChatMessage>,
                                 events: seq<Event>)
    requires w.storeOpen && Mirror(w, s) && Did(w, s, t, session, msgs, events) && msgs != [] && session != s.current
    ensures !Mirror(w, t)
  {
    hide RowsOf, Mirror;
    MirrorLength(w, s);
    RecordedRows(w, s, t, session, msgs, events, s.current);
    if Mirror(w, t) {
      MirrorLength(w, t);
      assert false;
    }
  }

  // ---- the host calls -----------------------------------------------------------------------

  /** Starting a session mirrors exactly when its id has no stored rows yet. */
  lemma StartingMirrorsExactly(w: World, s: State, freshId: string)
    requires w.storeOpen && AllNumbered(s.rows)
    ensures Mirror(w, s.(transcript := [], current := freshId)) <==> RowsOf(s.rows, freshId) == []
  {
    hide RowsOf, Mirror;
    var t := s.(transcript := [], current := freshId);
    if Mirror(w, t) {
      MirrorLength(w, t);
    }
    if RowsOf(s.rows, freshId) == [] {
      MirrorFromRows(w, t);
    }
  }

  /** Resuming a session restores exactly its stored messages. */
  lemma ResumingMirrors(w: World, s: State, session: string)
    requires w.storeOpen && AllNumbered(s.rows)
    ensures Mirror(w, s.(transcript := Messages(LoadSession(w, s.rows, session)), current := session))
  {
  }

  lemma SwitchMirrorsExactly(w: World, s: State, r: TurnRequest, freshId: string)
    requires w.storeOpen && Mirror(w, s)
    ensures Mirror(w, SwitchSession(w, s, r, freshId)) <==> (r.clear ==> RowsOf(s.rows, freshId) == [])
  {
    hide RowsOf, AllNumbered;
    if r.clear {
      StartingMirrorsExactly(w, s, freshId);
    } else if r.session != "" && r.session != s.current {
      ResumingMirrors(w, s, r.session);
    }
  }

  lemma TurnMirrors(w: World, s: State, r: TurnRequest, freshId: string)
    requires w.storeOpen && Mirror(w, s) && (r.clear ==> RowsOf(s.rows, freshId) == [])
    ensures Mirror(w, AgentTurn(w, s, r, freshId).state)
  {
    hide RowsOf, Mirror, AgentTurn, Did, Ends, TurnShape, Reports, SwitchSession;
    SwitchMirrorsExactly(w, s, r, freshId);
    var base := SwitchSession(w, s, r, freshId);
    var msgs, events := TurnDoes(w, s, r, freshId);
    RecordingHereMirrors(w, base, AgentTurn(w, s, r, freshId).state, msgs,
      (if r.message == "" then [] else OpeningEvents(base)) + events);
  }

  /** A decision keeps the mirror exactly when the decided call belongs to the current session. */
  lemma DecisionMirrorsExactly(w: World, s: State, r: DecisionRequest)
    requires w.storeOpen && Mirror(w, s) && !Mismatched(s, r)
    ensures Mirror(w, ToolDecision(w, s, r).state) <==> s.pending.session == s.current
  {
    hide RowsOf, Mirror, ToolDecision, Did, Ends, FinishShape, Reports;
    var msgs, events := DecisionDoes(w, s, r);
    var t := ToolDecision(w, s, r).state;
    var happened := [DecisionEvent(s, r)] + events;
    assert msgs != [];
    if s.pending.session == s.current {
      RecordingHereMirrors(w, s, t, msgs, happened);
    } else {
      RecordingElsewhereBreaks(w, s, t, s.pending.session, msgs, happened);
    }
  }

  lemma WithoutKeepsNumbers(rows: seq<Row>, gone: string)
    requires AllNumbered(rows)
    ensures AllNumbered(WithoutSession(rows, gone))
  {
    hide RowsOf, WithoutSession;
    forall x: string ensures Numbered(RowsOf(WithoutSession(rows, gone), x)) {
      RowsOfWithout(rows, gone, x);
      assert Numbered(RowsOf(rows, x));
    }
  }

  function Target(s: State, session: string): string { if session == "" then s.current else session }

  /** Deleting forgets the one session, leaves every other session's rows alone, and mirrors
      exactly when a session started in its place has no rows. */
  lemma DeletionMirrorsExactly(w: World, s: State, session: string, freshId: string)
    requires w.storeOpen && Mirror(w, s)
    ensures var t := DeleteSession(w, s, session, freshId);
      && (Mirror(w, t) <==> Target(s, session) != s.current || RowsOf(s.rows, freshId) == [] || freshId == s.current)
      && (forall x: string :: RowsOf(t.rows, x) == if x == Target(s, session) then [] else RowsOf(s.rows, x))
  {
    hide RowsOf, WithoutSession, Mirror;
    var target := Target(s, session);
    var t := DeleteSession(w, s, session, freshId);
    forall x: string ensures RowsOf(t.rows, x) == if x == target then [] else RowsOf(s.rows, x) {
      RowsOfWithout(s.rows, target, x);
    }
    assert AllNumbered(s.rows) by { MirrorParts(w, s); }
    WithoutKeepsNumbers(s.rows, target);
    if target == s.current {
      StartingMirrorsExactly(w, s.(rows := WithoutSession(s.rows, target)), freshId);
    } else {
      MirrorLength(w, s);
      MirrorFromRows(w, t);
    }
  }

  lemma MirrorParts(w: World, s: State)
    requires Mirror(w, s)
    ensures AllNumbered(s.rows)
  {
  }

  // ---- runs ---------------------------------------------------------------------------------

  /** The store is open, new session ids are unused, and decisions are for the current session. */
  predicate InOrder(w: World, s: State, step: Step) {
    && w.storeOpen
    && match step
       case Say(r, freshId) => r.clear ==> RowsOf(s.rows, freshId) == []
       case Judge(r) => Mismatched(s, r) || s.pending.session == s.current
       case Forget(session, freshId) =>
         Target(s, session) == s.current ==> RowsOf(s.rows, freshId) == [] || freshId == s.current
  }

  predicate RunInOrder(s: State, steps: seq<(World, Step)>) {
    forall i | 0 <= i < |steps| :: InOrder(steps[i].0, Run(s, steps[..i]), steps[i].1)
  }

  lemma StepMirrors(w: World, s: State, step: Step)
    requires Mirror(w, s) && InOrder(w, s, step)
    ensures Mirror(w, Next(w, s, step))
  {
    hide Mirror, AgentTurn, ToolDecision, DeleteSession, RowsOf, Mismatched;
    match step
    case Say(r, freshId) => TurnMirrors(w, s, r, freshId);
    case Judge(r) =>
      if Mismatched(s, r) {
        MismatchedDoesNothing(w, s, r);
      } else {
        DecisionMirrorsExactly(w, s, r);
      }
    case Forget(session, freshId) => DeletionMirrorsExactly(w, s, session, freshId);
  }

  lemma OpenStoresAgree(w: World, w': World, s: State)
    requires w.storeOpen && w'.storeOpen && Mirror(w, s)
    ensures Mirror(w', s)
  {
  }

  /** In every such run, reloading the current session gives the transcript in memory, and all
      stored sessions stay numbered 0, 1, 2, ... */
  lemma {:induction false} RunMirrors(w: World, s: State, steps: seq<(World, Step)>)
    requires w.storeOpen && Mirror(w, s) && RunInOrder(s, steps)
    ensures Mirror(w, Run(s, steps))
  {
    hide Mirror, Next, InOrder;
    if steps != [] {
      var n := |steps| - 1;
      var init := steps[..n];
      forall i | 0 <= i < n ensures InOrder(init[i].0, Run(s, init[..i]), init[i].1) {
        assert init[..i] == steps[..i];
      }
      RunMirrors(w, s, init);
      assert InOrder(steps[n].0, Run(s, steps[..n]), steps[n].1);
      var open := steps[n].0;
      assert open.storeOpen by { InOrderIsOpen(open, Run(s, init), steps[n].1); }
      OpenStoresAgree(w, open, Run(s, init));
      StepMirrors(open, Run(s, init), steps[n].1);
      OpenStoresAgree(open, w, Run(s, steps));
    }
  }

  lemma InOrderIsOpen(w: World, s: State, step: Step)
    requires InOrder(w, s, step)
    ensures w.storeOpen
  {
  }

  /** The host as it starts: nothing in memory, a session id nobody has used, any numbered store. */
  lemma FirstStateMirrors(w: World, s: State)
    requires w.storeOpen && s.transcript == [] && AllNumbered(s.rows) && RowsOf(s.rows, s.current) == []
    ensures Mirror(w, s)
  {
    StartingMirrorsExactly(w, s, s.current);
    assert s == s.(transcript := [], current := s.current);
  }
}
