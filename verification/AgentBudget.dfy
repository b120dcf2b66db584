/** Step budget, growth of the history and separation of owners, over every run. */
module AgentBudget {
  import opened Common
  import opened SessionKey
  import opened AgentProtocol
  import opened AgentSafety

  // ----- the step budget -----

  /** Accepted messages and accepted approval decisions of one session. */
  function AcceptedCount(log: seq<LogEntry>, owner: JsString, sid: JsString): nat {
    if log == [] then 0
    else AcceptedCount(log[..|log| - 1], owner, sid) + (if Accepts(log[|log| - 1], owner, sid) then 1 else 0)
  }

  predicate Accepts(e: LogEntry, owner: JsString, sid: JsString) {
    e == MessageAccepted(owner, sid) || (IsDecision(e) && e.owner == owner && e.sid == sid)
  }

  function ModelCallCount(log: seq<LogEntry>, owner: JsString, sid: JsString): nat {
    if log == [] then 0
    else ModelCallCount(log[..|log| - 1], owner, sid) + (if log[|log| - 1] == ModelCalled(owner, sid) then 1 else 0)
  }

  /** Model calls a task can still make, and history items it can still append. */
  function CallsLeft(o: Options, task: Task): int {
    match task
    case Looping(_, step) => o.maxSteps - step
    case AwaitingModel(_, step) => o.maxSteps - step - 1
    case AwaitingTool(_, _, next) => o.maxSteps - next
    case Resuming(_, _, _, _) => o.maxSteps
    case _ => 0
  }

  function ItemsLeft(o: Options, task: Task): int {
    match task
    case Looping(_, step) => o.maxSteps - step
    case AwaitingModel(_, step) => o.maxSteps - step
    case AwaitingTool(_, _, next) => o.maxSteps - next + 1
    case Resuming(_, _, _, _) => o.maxSteps + 1
    case _ => 0
  }

  predicate On(task: Task, key: JsString) { !task.Done? && task.key == key }

  function CallsOf(o: Options, task: Task, key: JsString): int {
    if On(task, key) then CallsLeft(o, task) else 0
  }

  function ItemsOf(o: Options, task: Task, key: JsString): int {
    if On(task, key) then ItemsLeft(o, task) else 0
  }

  function AllCallsLeft(o: Options, tasks: seq<Task>, key: JsString): int {
    if tasks == [] then 0
    else AllCallsLeft(o, tasks[..|tasks| - 1], key) + CallsOf(o, tasks[|tasks| - 1], key)
  }

  function AllItemsLeft(o: Options, tasks: seq<Task>, key: JsString): int {
    if tasks == [] then 0
    else AllItemsLeft(o, tasks[..|tasks| - 1], key) + ItemsOf(o, tasks[|tasks| - 1], key)
  }

  lemma {:induction false} ReplaceTask(o: Options, tasks: seq<Task>, t: nat, task: Task, key: JsString)
    requires t < |tasks|
    ensures AllCallsLeft(o, tasks[t := task], key)
         == AllCallsLeft(o, tasks, key) - CallsOf(o, tasks[t], key) + CallsOf(o, task, key)
    ensures AllItemsLeft(o, tasks[t := task], key)
         == AllItemsLeft(o, tasks, key) - ItemsOf(o, tasks[t], key) + ItemsOf(o, task, key)
  {
    var n := |tasks| - 1;
    if t == n {
      assert tasks[t := task][..n] == tasks[..n];
    } else {
      assert tasks[t := task][..n] == tasks[..n][t := task];
      ReplaceTask(o, tasks[..n], t, task, key);
    }
  }

  lemma AddTask(o: Options, tasks: seq<Task>, task: Task, key: JsString)
    ensures AllCallsLeft(o, tasks + [task], key) == AllCallsLeft(o, tasks, key) + CallsOf(o, task, key)
    ensures AllItemsLeft(o, tasks + [task], key) == AllItemsLeft(o, tasks, key) + ItemsOf(o, task, key)
  {
    assert (tasks + [task])[..|tasks|] == tasks;
  }

  /** `unit` for every accepted message and decision. */
  function Paid(log: seq<LogEntry>, unit: nat, owner: JsString, sid: JsString): nat {
    if log == [] then 0
    else Paid(log[..|log| - 1], unit, owner, sid) + (if Accepts(log[|log| - 1], owner, sid) then unit else 0)
  }

  lemma {:induction false} PaidIsProduct(log: seq<LogEntry>, unit: nat, owner: JsString, sid: JsString)
    ensures Paid(log, unit, owner, sid) == unit * AcceptedCount(log, owner, sid)
  {
    if log != [] {
      PaidIsProduct(log[..|log| - 1], unit, owner, sid);
    }
  }

  lemma AddEntry(log: seq<LogEntry>, e: LogEntry, unit: nat, owner: JsString, sid: JsString)
    ensures Paid(log + [e], unit, owner, sid) ==
        Paid(log, unit, owner, sid) + (if Accepts(e, owner, sid) then unit else 0)
    ensures ModelCallCount(log + [e], owner, sid)
         == ModelCallCount(log, owner, sid) + (if e == ModelCalled(owner, sid) then 1 else 0)
  {
    assert (log + [e])[..|log|] == log;
  }

  lemma {:induction false} NothingLeftNegative(o: Options, s: App, tasks: seq<Task>, key: JsString)
    requires forall t :: 0 <= t < |tasks| ==> TaskOk(o, s, tasks[t])
    ensures AllCallsLeft(o, tasks, key) >= 0 && AllItemsLeft(o, tasks, key) >= 0
  {
    if tasks != [] {
      NothingLeftNegative(o, s, tasks[..|tasks| - 1], key);
      assert TaskOk(o, s, tasks[|tasks| - 1]);
    }
  }

  function HistoryOf(s: App, key: JsString): seq<HistoryItem> {
    if key in s.sessions then s.sessions[key].history else []
  }

  /** What is done plus what can still be done never exceeds what was paid for. */
  ghost predicate Balanced(o: Options, log: seq<LogEntry>, tasks: seq<Task>, items: nat, owner: JsString,
                           sid: JsString) {
    var key := KeyOf(owner, sid);
    && ModelCallCount(log, owner, sid) + AllCallsLeft(o, tasks, key) <= Paid(log, o.maxSteps, owner, sid)
    && items + AllItemsLeft(o, tasks, key) <= Paid(log, o.maxSteps + 1, owner, sid)
  }

  ghost predicate WithinBudget(o: Options, s: App, owner: JsString, sid: JsString) {
    Balanced(o, s.log, s.tasks, |HistoryOf(s, KeyOf(owner, sid))|, owner, sid)
  }

  /** Task `t` moves on without a log entry that counts: what it appends or uses, it has less left. */
  lemma MoveTask(o: Options, log: seq<LogEntry>, tasks: seq<Task>, t: nat, task: Task,
                 items: nat, items': nat, owner: JsString, sid: JsString)
    requires Balanced(o, log, tasks, items, owner, sid) && t < |tasks|
    requires var key := KeyOf(owner, sid);
      CallsOf(o, task, key) <= CallsOf(o, tasks[t], key)
      && items' + ItemsOf(o, task, key) <= items + ItemsOf(o, tasks[t], key)
    ensures Balanced(o, log, tasks[t := task], items', owner, sid)
  {
    ReplaceTask(o, tasks, t, task, KeyOf(owner, sid));
  }

  /** An entry and a task move together: a model call uses one call, a decision pays for all. */
  lemma MoveAndLog(o: Options, log: seq<LogEntry>, tasks: seq<Task>, t: nat, task: Task, e: LogEntry,
                   items: nat, owner: JsString, sid: JsString)
    requires Balanced(o, log, tasks, items, owner, sid) && t < |tasks|
    requires var key := KeyOf(owner, sid);
      && (if e == ModelCalled(owner, sid) then 1 else 0) + CallsOf(o, task, key)
         <= CallsOf(o, tasks[t], key) + (if Accepts(e, owner, sid) then o.maxSteps else 0)
      && ItemsOf(o, task, key)
         <= ItemsOf(o, tasks[t], key) + (if Accepts(e, owner, sid) then o.maxSteps + 1 else 0)
    ensures Balanced(o, log + [e], tasks[t := task], items, owner, sid)
  {
    ReplaceTask(o, tasks, t, task, KeyOf(owner, sid));
    AddEntry(log, e, o.maxSteps, owner, sid);
    AddEntry(log, e, o.maxSteps + 1, owner, sid);
  }

  /** Log entries that neither pay nor count as a model call. */
  predicate Neutral(e: LogEntry) {
    e.Paused? || e.Ran? || (e.Audit? && !IsDecision(e))
  }

  lemma {:induction false} AddNeutral(o: Options, log: seq<LogEntry>, entries: seq<LogEntry>, tasks: seq<Task>,
                                      items: nat, owner: JsString, sid: JsString)
    requires forall i :: 0 <= i < |entries| ==> Neutral(entries[i])
    requires Balanced(o, log, tasks, items, owner, sid)
    ensures Balanced(o, log + entries, tasks, items, owner, sid)
  {
    hide Paid, ModelCallCount, AllCallsLeft, AllItemsLeft;
    if entries == [] {
      assert log + entries == log;
    } else {
      var n := |entries| - 1;
      AddNeutral(o, log, entries[..n], tasks, items, owner, sid);
      AddEntry(log + entries[..n], entries[n], o.maxSteps, owner, sid);
      AddEntry(log + entries[..n], entries[n], o.maxSteps + 1, owner, sid);
      assert log + entries == log + entries[..n] + [entries[n]];
    }
  }

  lemma SameSession(s: App, k: JsString, owner: JsString, sid: JsString)
    requires SessionsOk(s) && k in s.sessions
    ensures k == KeyOf(owner, sid) <==> s.sessions[k].owner == owner && s.sessions[k].id == sid
  {
    KeyOfInjective(owner, sid, s.sessions[k].owner, s.sessions[k].id);
  }

  /** A transition whose log entries are all neutral. */
  lemma NeutralMove(o: Options, s: App, s': App, k: JsString, t: nat, owner: JsString, sid: JsString)
    requires WithinBudget(o, s, owner, sid) && k in s.sessions && k in s'.sessions && t < |s.tasks| == |s'.tasks|
    requires s'.sessions == s.sessions[k := s'.sessions[k]] && s'.tasks == s.tasks[t := s'.tasks[t]]
    requires s.log <= s'.log && forall i :: |s.log| <= i < |s'.log| ==> Neutral(s'.log[i])
    requires On(s.tasks[t], k) && (s'.tasks[t].Done? || On(s'.tasks[t], k))
    requires CallsOf(o, s'.tasks[t], k) <= CallsOf(o, s.tasks[t], k)
    requires |s'.sessions[k].history| + ItemsOf(o, s'.tasks[t], k)
          <= |s.sessions[k].history| + ItemsOf(o, s.tasks[t], k)
    ensures WithinBudget(o, s', owner, sid)
  {
    var key := KeyOf(owner, sid);
    var items, items' := |HistoryOf(s, key)|, |HistoryOf(s', key)|;
    MoveTask(o, s.log, s.tasks, t, s'.tasks[t], items, items', owner, sid);
    AddNeutral(o, s.log, s'.log[|s.log|..], s'.tasks, items', owner, sid);
    assert s'.log == s.log + s'.log[|s.log|..];
  }

  lemma SendWithinBudget(o: Options, s: App, owner': JsString, id: JsString, text: string, owner: JsString,
                         sid: JsString)
    requires Inv(o, s) && WithinBudget(o, s, owner, sid)
    ensures WithinBudget(o, StepSend(s, owner', id, text), owner, sid)
  {
    var k := KeyOf(owner', id);
    if k in s.sessions && s.sessions[k].pending.None? {
      SameSession(s, k, owner, sid);
      var s' := StepSend(s, owner', id, text);
      var e := MessageAccepted(s.sessions[k].owner, s.sessions[k].id);
      assert Accepts(e, owner, sid) <==> k == KeyOf(owner, sid);
      var items, items' := |HistoryOf(s, KeyOf(owner, sid))|, |HistoryOf(s', KeyOf(owner, sid))|;
      assert items' == items + if k == KeyOf(owner, sid) then 1 else 0;
      PaidLoop(o, s.log, s.tasks, k, e, items, items', owner, sid);
    }
  }

  /** A message pays for the loop it starts and for its own history item. */
  lemma PaidLoop(o: Options, log: seq<LogEntry>, tasks: seq<Task>, k: JsString, e: LogEntry,
                 items: nat, items': nat, owner: JsString, sid: JsString)
    requires Balanced(o, log, tasks, items, owner, sid) && e.MessageAccepted?
    requires Accepts(e, owner, sid) <==> k == KeyOf(owner, sid)
    requires items' == items + if k == KeyOf(owner, sid) then 1 else 0
    ensures Balanced(o, log + [e], tasks + [Looping(k, 0)], items', owner, sid)
  {
    AddTask(o, tasks, Looping(k, 0), KeyOf(owner, sid));
    AddEntry(log, e, o.maxSteps, owner, sid);
    AddEntry(log, e, o.maxSteps + 1, owner, sid);
  }

  /** A transition that logs one entry and leaves the history alone. */
  lemma LoggedMove(o: Options, s: App, s': App, k: JsString, t: nat, e: LogEntry, owner: JsString, sid: JsString)
    requires SessionsOk(s) && WithinBudget(o, s, owner, sid) && k in s.sessions && k in s'.sessions && t < |s.tasks|
    requires s'.sessions == s.sessions[k := s'.sessions[k]] && s'.sessions[k].history == s.sessions[k].history
    requires |s'.tasks| == |s.tasks| && s'.tasks == s.tasks[t := s'.tasks[t]] && s'.log == s.log + [e]
    requires On(s.tasks[t], k) && On(s'.tasks[t], k)
    requires (e.ModelCalled? || IsDecision(e)) && e.owner == s.sessions[k].owner && e.sid == s.sessions[k].id
    requires (if e.ModelCalled? then 1 else 0) + CallsLeft(o, s'.tasks[t])
          <= CallsLeft(o, s.tasks[t]) + (if e.ModelCalled? then 0 else o.maxSteps)
    requires ItemsLeft(o, s'.tasks[t]) <= ItemsLeft(o, s.tasks[t]) + (if e.ModelCalled? then 0 else o.maxSteps + 1)
    ensures WithinBudget(o, s', owner, sid)
  {
    SameSession(s, k, owner, sid);
    MoveAndLog(o, s.log, s.tasks, t, s'.tasks[t], e, |HistoryOf(s, KeyOf(owner, sid))|, owner, sid);
  }

  lemma FinishWithinBudget(o: Options, s: App, t: nat, verified: Option<Claims>, owner: JsString, sid: JsString)
    requires SessionsOk(s) && t < |s.tasks| && s.tasks[t].Verifying? && s.tasks[t].key in s.sessions
    requires WithinBudget(o, s, owner, sid)
    ensures WithinBudget(o, StepFinish(s, t, verified), owner, sid)
  {
    var s' := StepFinish(s, t, verified);
    var Verifying(k, call, approve) := s.tasks[t];
    if verified.Some? && Matches(verified.value, s.sessions[k], call) {
      LoggedMove(o, s, s', k, t, s'.log[|s.log|], owner, sid);
    } else {
      NeutralMove(o, s, s', k, t, owner, sid);
    }
  }

  lemma AdvanceWithinBudget(o: Options, s: App, t: nat, owner: JsString, sid: JsString)
    requires SessionsOk(s) && t < |s.tasks| && s.tasks[t].Looping? && s.tasks[t].key in s.sessions
    requires s.tasks[t].step <= o.maxSteps
    requires WithinBudget(o, s, owner, sid)
    ensures WithinBudget(o, StepAdvance(o, s, t), owner, sid)
  {
    var s' := StepAdvance(o, s, t);
    var Looping(k, step) := s.tasks[t];
    if step < o.maxSteps {
      LoggedMove(o, s, s', k, t, s'.log[|s.log|], owner, sid);
    } else {
      NeutralMove(o, s, s', k, t, owner, sid);
    }
  }

  lemma ReplyWithinBudget(o: Options, s: App, t: nat, turn: ModelTurn, callId: JsString, owner: JsString, sid: JsString)
    requires t < |s.tasks| && s.tasks[t].AwaitingModel? && s.tasks[t].key in s.sessions
    requires s.tasks[t].step < o.maxSteps && WithinBudget(o, s, owner, sid)
    ensures WithinBudget(o, StepModelReply(o, s, t, turn, callId), owner, sid)
  {
    NeutralMove(o, s, StepModelReply(o, s, t, turn, callId), s.tasks[t].key, t, owner, sid);
  }

  lemma ToolReplyWithinBudget(o: Options, s: App, t: nat, output: Option<string>, owner: JsString, sid: JsString)
    requires t < |s.tasks| && s.tasks[t].AwaitingTool? && s.tasks[t].key in s.sessions
    requires WithinBudget(o, s, owner, sid)
    ensures WithinBudget(o, StepToolReply(s, t, output), owner, sid)
  {
    NeutralMove(o, s, StepToolReply(s, t, output), s.tasks[t].key, t, owner, sid);
  }

  lemma SignWithinBudget(o: Options, s: App, t: nat, owner: JsString, sid: JsString)
    requires t < |s.tasks| && s.tasks[t].AwaitingSignature? && s.tasks[t].key in s.sessions
    requires WithinBudget(o, s, owner, sid)
    ensures WithinBudget(o, StepSign(s, t), owner, sid)
  {
    NeutralMove(o, s, StepSign(s, t), s.tasks[t].key, t, owner, sid);
  }

  lemma ResumeWithinBudget(o: Options, s: App, t: nat, owner: JsString, sid: JsString)
    requires t < |s.tasks| && s.tasks[t].Resuming? && s.tasks[t].key in s.sessions
    requires WithinBudget(o, s, owner, sid)
    ensures WithinBudget(o, StepResume(s, t), owner, sid)
  {
    NeutralMove(o, s, StepResume(s, t), s.tasks[t].key, t, owner, sid);
  }

  lemma DropWithinBudget(o: Options, s: App, t: nat, owner: JsString, sid: JsString)
    requires t < |s.tasks| && !s.tasks[t].Done? && TaskOk(o, s, s.tasks[t]) && WithinBudget(o, s, owner, sid)
    ensures WithinBudget(o, s.(tasks := s.tasks[t := Done]), owner, sid)
  {
    NeutralMove(o, s, s.(tasks := s.tasks[t := Done]), s.tasks[t].key, t, owner, sid);
  }

  lemma StepWithinBudget(o: Options, s: App, e: Event, owner: JsString, sid: JsString)
    requires Inv(o, s) && Enabled(s, e) && WithinBudget(o, s, owner, sid)
    ensures WithinBudget(o, Step(o, s, e), owner, sid)
  {
    hide Balanced;
    if !e.Create? && !e.Send? && !e.BeginDecision? { assert TaskOk(o, s, s.tasks[e.task]); }
    match e
    case Create(owner', id) => InvCreate(o, s, owner', id);
    case Send(owner', id, text) => SendWithinBudget(o, s, owner', id, text, owner, sid);
    case Advance(t) => AdvanceWithinBudget(o, s, t, owner, sid);
    case ModelReply(t, turn, callId) => ReplyWithinBudget(o, s, t, turn, callId, owner, sid);
    case Sign(t) => SignWithinBudget(o, s, t, owner, sid);
    case ToolReply(t, output) => ToolReplyWithinBudget(o, s, t, output, owner, sid);
    case BeginDecision(owner', id, approve) => AddHandler(o, s, owner', id, approve, owner, sid);
    case FinishDecision(t, verified) => FinishWithinBudget(o, s, t, verified, owner, sid);
    case Resume(t) => ResumeWithinBudget(o, s, t, owner, sid);
    case Drop(t) => DropWithinBudget(o, s, t, owner, sid);
  }

  lemma AddHandler(o: Options, s: App, owner': JsString, id: JsString, approve: bool, owner: JsString, sid: JsString)
    requires WithinBudget(o, s, owner, sid)
    ensures WithinBudget(o, StepBegin(s, owner', id, approve), owner, sid)
  {
    var s' := StepBegin(s, owner', id, approve);
    if s' != s { AddTask(o, s.tasks, s'.tasks[|s.tasks|], KeyOf(owner, sid)); }
  }

  lemma {:induction false} RunWithinBudget(o: Options, s: App, es: seq<Event>, owner: JsString, sid: JsString)
    requires Inv(o, s) && IsRun(o, s, es) && WithinBudget(o, s, owner, sid)
    ensures WithinBudget(o, RunFrom(o, s, es), owner, sid)
    decreases |es|
  {
    if es != [] {
      StepWithinBudget(o, s, es[0], owner, sid);
      StepKeepsInv(o, s, es[0]);
      RunWithinBudget(o, Step(o, s, es[0]), es[1..], owner, sid);
    }
  }

  lemma BudgetOf(o: Options, s: App, owner: JsString, sid: JsString)
    requires Inv(o, s) && WithinBudget(o, s, owner, sid)
    ensures ModelCallCount(s.log, owner, sid) <= o.maxSteps * AcceptedCount(s.log, owner, sid)
    ensures |HistoryOf(s, KeyOf(owner, sid))| <= (o.maxSteps + 1) * AcceptedCount(s.log, owner, sid)
  {
    NothingLeftNegative(o, s, s.tasks, KeyOf(owner, sid));
    PaidIsProduct(s.log, o.maxSteps, owner, sid);
    PaidIsProduct(s.log, o.maxSteps + 1, owner, sid);
  }

  /**
   * Any interleaving: a session's model calls are at most `maxSteps` for each accepted message
   * or decision, and its history is at most `maxSteps + 1` items for each.
   */
  lemma BudgetHolds(o: Options, es: seq<Event>, owner: JsString, sid: JsString)
    requires IsRun(o, INIT, es)
    ensures var s := RunFrom(o, INIT, es);
      var n := AcceptedCount(s.log, owner, sid);
      && ModelCallCount(s.log, owner, sid) <= o.maxSteps * n
      && |HistoryOf(s, KeyOf(owner, sid))| <= (o.maxSteps + 1) * n
  {
    RunWithinBudget(o, INIT, es, owner, sid);
    RunKeepsInv(o, INIT, es);
    BudgetOf(o, RunFrom(o, INIT, es), owner, sid);
  }
}
