/**
 * A reference for examples/agent-loop.ts that looks at the events alone: who asks for what, what the
 * model, the tools and the verifier answer, and what that puts into histories and log. It names
 * sessions by owner and id, keeps no session records, and writes every text out; the protocol's
 * runs are proved to be its runs.
 */
module AgentReference {
  import opened Common
  import opened SessionKey
  import opened AgentProtocol
  import opened AgentSafety

  type Pair = (JsString, JsString) // owner and session id

  /** What a request in flight does next. */
  datatype Point = Ended | AtLoop | AtModel | AtSignature | AtTool | AtVerifier | AtResume

  /** `asked` counts the tools the model has asked for since its loop started; `call` is the last call. */
  datatype Thread = Thread(of: Pair, point: Point, asked: nat, call: Call, approve: bool, grant: nat)

  const NO_CALL := Call([], "", "")

  /** Sessions with the call each waits for, the requests in flight, tokens and ids issued, and the log. */
  datatype Watch = Watch(
    waiting: map<Pair, Option<Call>>,
    threads: seq<Thread>,
    tokens: set<Claims>,
    ids: set<JsString>,
    log: seq<LogEntry>)

  const NOTHING := Watch(map[], [], {}, {}, [])

  /** The request would be accepted (lines 217-220 and 244-246). */
  function AnswerTo(w: Watch, e: Event): Option<Status> {
    match e
    case Send(owner, id, _) =>
      Some(if (owner, id) !in w.waiting then NotFound404
           else if w.waiting[(owner, id)].Some? then Conflict409 else Success200)
    case BeginDecision(owner, id, _) =>
      Some(if (owner, id) !in w.waiting then NotFound404
           else if w.waiting[(owner, id)].None? then Conflict409 else Success200)
    case _ => None
  }

  predicate At(w: Watch, t: nat, point: Point) {
    t < |w.threads| && w.threads[t].point == point && w.threads[t].of in w.waiting
  }

  /** The event can happen. */
  predicate May(w: Watch, e: Event) {
    match e
    case Create(_, id) => id !in w.ids
    case Send(_, _, _) => true
    case Advance(t) => At(w, t, AtLoop)
    case ModelReply(t, _, callId) => At(w, t, AtModel) && callId !in w.ids
    case Sign(t) => At(w, t, AtSignature)
    case ToolReply(t, _) => At(w, t, AtTool)
    case BeginDecision(_, _, _) => true
    case FinishDecision(t, verified) => At(w, t, AtVerifier) && (verified.Some? ==> verified.value in w.tokens)
    case Resume(t) => At(w, t, AtResume)
    case Drop(t) => At(w, t, AtLoop) || At(w, t, AtModel) || At(w, t, AtSignature) || At(w, t, AtResume)
  }

  /** The model asks for a tool that exists, with input that its schema accepts; this is the parsed input. */
  function Input(o: Options, turn: ModelTurn): Option<Json> {
    if turn.UseTool? && turn.name in o.tools then o.tools[turn.name].parse(turn.input) else None
  }

  predicate Accepted(th: Thread, verified: Option<Claims>) {
    verified == Some(Claims(th.of.0, th.of.1, th.call.id))
  }

  /** What the event appends to the history of session `p`. */
  function Says(o: Options, w: Watch, e: Event, p: Pair): seq<HistoryItem> {
    match e
    case Send(owner, id, text) =>
      if p == (owner, id) && p in w.waiting && w.waiting[p].None? then [HistoryItem(UserRole, text, None)] else []
    case ModelReply(t, Text(text), _) =>
      if Mine(w, t, p) then [HistoryItem(AssistantRole, text, None)] else []
    case ModelReply(t, UseTool(name, input), _) =>
      if !Mine(w, t, p) then []
      else if name !in o.tools then [HistoryItem(ToolRole, "Unknown tool \"" + name + "\".", Some(name))]
      else if o.tools[name].parse(input).None? then [HistoryItem(ToolRole, "Invalid tool input.", Some(name))]
      else []
    case ToolReply(t, output) =>
      if !Mine(w, t, p) then []
      else if output.Some? then [HistoryItem(ToolRole, output.value, Some(w.threads[t].call.name))]
      else [HistoryItem(ToolRole, "The tool failed.", Some(w.threads[t].call.name))]
    case Resume(t) =>
      if Mine(w, t, p) && !w.threads[t].approve then
        [HistoryItem(ToolRole, "The user denied this action.", Some(w.threads[t].call.name))]
      else []
    case _ => []
  }

  predicate Mine(w: Watch, t: nat, p: Pair) { t < |w.threads| && w.threads[t].of == p }

  /** What the event appends to the log. */
  function Writes(o: Options, w: Watch, e: Event): seq<LogEntry>
    requires May(w, e)
  {
    match e
    case Send(owner, id, _) =>
      if AnswerTo(w, e) == Some(Success200) then [MessageAccepted(owner, id)] else []
    case Advance(t) =>
      var th := w.threads[t];
      if th.asked < o.maxSteps then [ModelCalled(th.of.0, th.of.1)] else []
    case ModelReply(t, turn, callId) =>
      var th := w.threads[t];
      if Input(o, turn).None? then []
      else if o.tools[turn.name].risky then [Paused(th.of.0, th.of.1, Call(callId, turn.name, Input(o, turn).value))]
      else Runs(th, Call(callId, turn.name, Input(o, turn).value), None)
    case Sign(t) =>
      var th := w.threads[t];
      [Audit(ApprovalRequested, th.of.0, th.of.1, th.call.name, th.call.id)]
    case ToolReply(t, output) =>
      var th := w.threads[t];
      if output.None? then [Audit(ToolError, th.of.0, th.of.1, th.call.name, th.call.id)] else []
    case FinishDecision(t, verified) =>
      var th := w.threads[t];
      if !Accepted(th, verified) then []
      else if th.approve then [Audit(ApprovalGranted, th.of.0, th.of.1, th.call.name, th.call.id)]
      else [Audit(ApprovalDenied, th.of.0, th.of.1, th.call.name, th.call.id)]
    case Resume(t) =>
      var th := w.threads[t];
      if th.approve then Runs(th, th.call, Some(th.grant)) else []
    case _ => []
  }

  /** A run is audited first (lines 134-137). */
  function Runs(th: Thread, call: Call, warrant: Option<nat>): seq<LogEntry> {
    [Audit(ToolCall, th.of.0, th.of.1, call.name, call.id), Ran(th.of.0, th.of.1, call, warrant)]
  }

  /** Where the event leaves the request that it resumes. */
  function Thereafter(o: Options, w: Watch, e: Event): Thread
    requires May(w, e) && !e.Create? && !e.Send? && !e.BeginDecision?
  {
    var th := w.threads[e.task];
    match e
    case Advance(_) => th.(point := if th.asked < o.maxSteps then AtModel else Ended)
    case ModelReply(_, Text(_), _) => th.(point := Ended)
    case ModelReply(_, UseTool(name, input), callId) =>
      if Input(o, e.turn).None? then th.(point := AtLoop, asked := th.asked + 1)
      else
        th.(point := if o.tools[name].risky then AtSignature else AtTool, asked := th.asked + 1,
            call := Call(callId, name, Input(o, e.turn).value))
    case ToolReply(_, _) => th.(point := AtLoop)
    case FinishDecision(_, verified) =>
      if Accepted(th, verified) then th.(point := AtResume, grant := |w.log|) else th.(point := Ended)
    case Resume(_) => th.(point := if th.approve then AtTool else AtLoop)
    case _ => th.(point := Ended)
  }

  function Threads(o: Options, w: Watch, e: Event): seq<Thread>
    requires May(w, e)
  {
    match e
    case Create(_, _) => w.threads
    case Send(owner, id, _) =>
      if AnswerTo(w, e) != Some(Success200) then w.threads
      else w.threads + [Thread((owner, id), AtLoop, 0, NO_CALL, false, 0)]
    case BeginDecision(owner, id, approve) =>
      if AnswerTo(w, e) != Some(Success200) then w.threads
      else w.threads + [Thread((owner, id), AtVerifier, 0, w.waiting[(owner, id)].value, approve, 0)]
    case _ => w.threads[e.task := Thereafter(o, w, e)]
  }

  /** A risky call waits, an accepted decision ends the wait of its session. */
  function Waiting(o: Options, w: Watch, e: Event): map<Pair, Option<Call>>
    requires May(w, e)
  {
    match e
    case Create(owner, id) => w.waiting[(owner, id) := None]
    case ModelReply(t, turn, callId) =>
      if Input(o, turn).Some? && o.tools[turn.name].risky then
        w.waiting[w.threads[t].of := Some(Call(callId, turn.name, Input(o, turn).value))]
      else w.waiting
    case FinishDecision(t, verified) =>
      if Accepted(w.threads[t], verified) then w.waiting[w.threads[t].of := None] else w.waiting
    case _ => w.waiting
  }

  function After(o: Options, w: Watch, e: Event): Watch
    requires May(w, e)
  {
    Watch(
      Waiting(o, w, e),
      Threads(o, w, e),
      if e.Sign? then w.tokens + {Claims(w.threads[e.task].of.0, w.threads[e.task].of.1, w.threads[e.task].call.id)}
      else w.tokens,
      if e.Create? then w.ids + {e.id}
      else if e.ModelReply? && Input(o, e.turn).Some? then w.ids + {e.callId}
      else w.ids,
      w.log + Writes(o, w, e))
  }

  /** The events can happen one after the other. */
  predicate Plays(o: Options, es: seq<Event>)
    decreases |es|, 0
  {
    es == [] || (Plays(o, es[..|es| - 1]) && May(Watched(o, es[..|es| - 1]), es[|es| - 1]))
  }

  function Watched(o: Options, es: seq<Event>): Watch
    requires Plays(o, es)
    decreases |es|, 1
  {
    if es == [] then NOTHING else After(o, Watched(o, es[..|es| - 1]), es[|es| - 1])
  }

  /** What the events put into the history of session `p`, in order. */
  function Told(o: Options, es: seq<Event>, p: Pair): seq<HistoryItem>
    requires Plays(o, es)
  {
    if es == [] then []
    else Told(o, es[..|es| - 1], p) + Says(o, Watched(o, es[..|es| - 1]), es[|es| - 1], p)
  }

  // ----- the protocol follows the reference -----

  predicate Follows(task: Task, th: Thread) {
    match task
    case Done => th.point == Ended
    case Looping(key, step) => th.point == AtLoop && key == KeyOf(th.of.0, th.of.1) && step == th.asked
    case AwaitingModel(key, step) => th.point == AtModel && key == KeyOf(th.of.0, th.of.1) && step == th.asked
    case AwaitingSignature(key, call) => th.point == AtSignature && key == KeyOf(th.of.0, th.of.1) && call == th.call
    case AwaitingTool(key, call, next) =>
      th.point == AtTool && key == KeyOf(th.of.0, th.of.1) && call == th.call && next == th.asked
    case Verifying(key, call, approve) =>
      th.point == AtVerifier && key == KeyOf(th.of.0, th.of.1) && call == th.call && approve == th.approve
      && th.asked == 0
    case Resuming(key, call, approve, grant) =>
      th.point == AtResume && key == KeyOf(th.of.0, th.of.1) && call == th.call && approve == th.approve
      && grant == th.grant && th.asked == 0
  }

  /** The sessions that exist, and the call that each waits for. */
  predicate SamePair(s: App, w: Watch, p: Pair) {
    var key := KeyOf(p.0, p.1);
    (p in w.waiting <==> key in s.sessions) && (p in w.waiting ==> w.waiting[p] == s.sessions[key].pending)
  }

  ghost predicate Matches(s: App, w: Watch) {
    && (forall p :: SamePair(s, w, p))
    && |s.tasks| == |w.threads| && (forall t :: 0 <= t < |s.tasks| ==> Follows(s.tasks[t], w.threads[t]))
    && s.tokens == w.tokens && s.ids == w.ids && s.log == w.log
  }

  /** The session of a pair, if it is there, is the one of that owner and id. */
  ghost predicate Named(s: App) {
    forall k :: k in s.sessions ==> k == KeyOf(s.sessions[k].owner, s.sessions[k].id)
  }

  lemma PairsAreKeys(s: App, p: Pair, q: Pair)
    requires KeyOf(p.0, p.1) == KeyOf(q.0, q.1)
    ensures p == q
  {
    KeyOfInjective(p.0, p.1, q.0, q.1);
  }

  lemma SessionOf(s: App, p: Pair)
    requires Named(s) && KeyOf(p.0, p.1) in s.sessions
    ensures s.sessions[KeyOf(p.0, p.1)].owner == p.0 && s.sessions[KeyOf(p.0, p.1)].id == p.1
  {
    var session := s.sessions[KeyOf(p.0, p.1)];
    PairsAreKeys(s, p, (session.owner, session.id));
  }

  /** A task that has not ended works on a session that is there. */
  lemma TaskHasSession(o: Options, s: App, w: Watch, t: nat)
    requires Inv(o, s) && Matches(s, w) && t < |s.tasks| && !s.tasks[t].Done?
    ensures var p := w.threads[t].of;
      s.tasks[t].key == KeyOf(p.0, p.1) && p in w.waiting && s.tasks[t].key in s.sessions
      && s.sessions[s.tasks[t].key].owner == p.0 && s.sessions[s.tasks[t].key].id == p.1
      && w.waiting[p] == s.sessions[s.tasks[t].key].pending && Follows(s.tasks[t], w.threads[t])
  {
    assert TaskOk(o, s, s.tasks[t]);
    var p := w.threads[t].of;
    assert SamePair(s, w, p);
    SessionOf(s, p);
  }

  /** The same events can happen, and requests are answered the same. */
  lemma SameMoves(o: Options, s: App, w: Watch, e: Event)
    requires Inv(o, s) && Matches(s, w)
    ensures Enabled(s, e) <==> May(w, e)
    ensures e.Send? ==> AnswerTo(w, e) == Some(SendStatus(s, e.owner, e.id))
    ensures e.BeginDecision? ==> AnswerTo(w, e) == Some(DecisionStatus(s, e.owner, e.id))
  {
    match e
    case Create(_, _) =>
    case Send(owner, id, _) => assert SamePair(s, w, (owner, id));
    case BeginDecision(owner, id, _) => assert SamePair(s, w, (owner, id));
    case _ =>
      hide KeyOf;
      if e.task < |s.tasks| {
        assert Follows(s.tasks[e.task], w.threads[e.task]);
        if !s.tasks[e.task].Done? {
          TaskHasSession(o, s, w, e.task);
        }
      }
  }

  /** What a step does to one session, at `key`, and to one task. */
  ghost predicate Local(s: App, s': App, key: JsString, t: nat) {
    && key in s.sessions && s'.sessions.Keys == s.sessions.Keys
    && (forall k :: k in s.sessions && k != key ==> s'.sessions[k] == s.sessions[k])
    && t < |s.tasks| == |s'.tasks| && (forall u :: 0 <= u < |s.tasks| && u != t ==> s'.tasks[u] == s.tasks[u])
  }

  /** And that is what the reference does to the pair and the thread. */
  ghost predicate SameStep(o: Options, s: App, w: Watch, e: Event)
    requires Enabled(s, e) && May(w, e) && TaskEvent(e)
  {
    var s', key, p := Step(o, s, e), s.tasks[e.task].key, w.threads[e.task].of;
    && Local(s, s', key, e.task) && Follows(s'.tasks[e.task], Thereafter(o, w, e))
    && p in w.waiting && s'.sessions[key].pending == Waiting(o, w, e)[p]
    && s'.sessions[key].history == s.sessions[key].history + Says(o, w, e, p)
    && s'.tokens == After(o, w, e).tokens && s'.ids == After(o, w, e).ids && s'.log == w.log + Writes(o, w, e)
  }

  predicate TaskEvent(e: Event) { !e.Create? && !e.Send? && !e.BeginDecision? }

  /** The task and its thread, before the step. */
  ghost predicate Ready(s: App, w: Watch, e: Event) {
    && Enabled(s, e) && May(w, e) && TaskEvent(e) && e.task < |s.tasks| && !s.tasks[e.task].Done?
    && s.tokens == w.tokens && s.ids == w.ids && s.log == w.log
    && var p, key := w.threads[e.task].of, s.tasks[e.task].key;
       p in w.waiting && key in s.sessions && key == KeyOf(p.0, p.1) && w.waiting[p] == s.sessions[key].pending
       && s.sessions[key].owner == p.0 && s.sessions[key].id == p.1 && Follows(s.tasks[e.task], w.threads[e.task])
  }

  lemma AdvanceSame(o: Options, s: App, w: Watch, e: Event)
    requires Ready(s, w, e) && e.Advance?
    ensures SameStep(o, s, w, e)
  {
    hide KeyOf;
  }

  lemma TextSame(o: Options, s: App, w: Watch, e: Event)
    requires Ready(s, w, e) && e.ModelReply? && e.turn.Text?
    ensures SameStep(o, s, w, e)
  {
    hide KeyOf;
  }

  lemma RefusalSame(o: Options, s: App, w: Watch, e: Event)
    requires Ready(s, w, e) && e.ModelReply? && e.turn.UseTool? && Input(o, e.turn).None?
    ensures SameStep(o, s, w, e)
  {
    hide KeyOf;
  }

  lemma ToolSame(o: Options, s: App, w: Watch, e: Event)
    requires Ready(s, w, e) && e.ModelReply? && Input(o, e.turn).Some?
    ensures SameStep(o, s, w, e)
  {
    hide KeyOf;
  }

  lemma SignSame(o: Options, s: App, w: Watch, e: Event)
    requires Ready(s, w, e) && e.Sign?
    ensures SameStep(o, s, w, e)
  {
    hide KeyOf;
  }

  lemma ToolReplySame(o: Options, s: App, w: Watch, e: Event)
    requires Ready(s, w, e) && e.ToolReply?
    ensures SameStep(o, s, w, e)
  {
    hide KeyOf;
  }

  lemma FinishSame(o: Options, s: App, w: Watch, e: Event)
    requires Ready(s, w, e) && e.FinishDecision?
    ensures SameStep(o, s, w, e)
  {
    hide KeyOf;
  }

  lemma ResumeSame(o: Options, s: App, w: Watch, e: Event)
    requires Ready(s, w, e) && e.Resume?
    ensures SameStep(o, s, w, e)
  {
    hide KeyOf;
  }

  lemma DropSame(o: Options, s: App, w: Watch, e: Event)
    requires Ready(s, w, e) && e.Drop?
    ensures SameStep(o, s, w, e)
  {
    hide KeyOf;
  }

  /** The history of every other pair, and of the pair itself, after the step. */
  ghost predicate SameHistories(o: Options, s: App, w: Watch, e: Event)
    requires Enabled(s, e)
  {
    forall p: Pair :: HistoryAt(Step(o, s, e), p) == HistoryAt(s, p) + Says(o, w, e, p)
  }

  /** The history of a session, nothing if it is not there. */
  function HistoryAt(s: App, p: Pair): seq<HistoryItem> {
    if KeyOf(p.0, p.1) in s.sessions then s.sessions[KeyOf(p.0, p.1)].history else []
  }

  lemma TaskStepFollows(o: Options, s: App, w: Watch, e: Event)
    requires Matches(s, w) && Ready(s, w, e) && SameStep(o, s, w, e)
    ensures Matches(Step(o, s, e), After(o, w, e)) && SameHistories(o, s, w, e)
  {
    hide Step, KeyOf, Writes, Follows, Thereafter, Enabled;
    var s', w' := Step(o, s, e), After(o, w, e);
    var mine := w.threads[e.task].of;
    forall p ensures SamePair(s', w', p)
      ensures HistoryAt(s', p) == HistoryAt(s, p) + Says(o, w, e, p)
    {
      assert SamePair(s, w, p);
      if p != mine {
        if KeyOf(p.0, p.1) == KeyOf(mine.0, mine.1) { PairsAreKeys(s, p, mine); }
        assert Says(o, w, e, p) == [];
      }
    }
    assert w'.threads == w.threads[e.task := Thereafter(o, w, e)];
    forall t | 0 <= t < |s'.tasks| ensures Follows(s'.tasks[t], w'.threads[t]) {
      if t != e.task { assert s'.tasks[t] == s.tasks[t]; }
    }
  }

  // ----- a request -----

  lemma CreateFollows(o: Options, s: App, w: Watch, e: Event)
    requires Inv(o, s) && Matches(s, w) && Enabled(s, e) && May(w, e) && e.Create?
    ensures Matches(Step(o, s, e), After(o, w, e)) && SameHistories(o, s, w, e)
  {
    var s', w', mine := Step(o, s, e), After(o, w, e), (e.owner, e.id);
    InvCreate(o, s, e.owner, e.id);
    hide KeyOf, Inv, Follows;
    assert w'.log == w.log;
    forall p ensures SamePair(s', w', p)
      ensures HistoryAt(s', p) == HistoryAt(s, p) + Says(o, w, e, p)
    {
      assert SamePair(s, w, p);
      if p != mine && KeyOf(p.0, p.1) == KeyOf(mine.0, mine.1) { PairsAreKeys(s, p, mine); }
    }
  }

  lemma SendFollows(o: Options, s: App, w: Watch, e: Event)
    requires Matches(s, w) && Named(s) && Enabled(s, e) && May(w, e) && e.Send?
    ensures Matches(Step(o, s, e), After(o, w, e)) && SameHistories(o, s, w, e)
  {
    var s', w', mine := Step(o, s, e), After(o, w, e), (e.owner, e.id);
    assert SamePair(s, w, mine);
    if KeyOf(mine.0, mine.1) in s.sessions { SessionOf(s, mine); }
    hide KeyOf, Follows;
    assert s'.log == w'.log;
    forall p ensures SamePair(s', w', p)
      ensures HistoryAt(s', p) == HistoryAt(s, p) + Says(o, w, e, p)
    {
      assert SamePair(s, w, p);
      if p != mine && KeyOf(p.0, p.1) == KeyOf(mine.0, mine.1) { PairsAreKeys(s, p, mine); }
    }
    NewThreadFollows(s, s', w, w');
  }

  lemma BeginFollows(o: Options, s: App, w: Watch, e: Event)
    requires Matches(s, w) && Enabled(s, e) && May(w, e) && e.BeginDecision?
    ensures Matches(Step(o, s, e), After(o, w, e)) && SameHistories(o, s, w, e)
  {
    var s', w', mine := Step(o, s, e), After(o, w, e), (e.owner, e.id);
    assert SamePair(s, w, mine);
    hide KeyOf, Follows;
    assert s'.log == w'.log;
    forall p ensures SamePair(s', w', p)
      ensures HistoryAt(s', p) == HistoryAt(s, p) + Says(o, w, e, p)
    {
      assert SamePair(s, w, p);
    }
    NewThreadFollows(s, s', w, w');
  }

  /** At most one task is added, and it follows its thread. */
  lemma NewThreadFollows(s: App, s': App, w: Watch, w': Watch)
    requires |s.tasks| == |w.threads| && forall t :: 0 <= t < |s.tasks| ==> Follows(s.tasks[t], w.threads[t])
    requires || (s'.tasks == s.tasks && w'.threads == w.threads)
             || (exists task, th :: s'.tasks == s.tasks + [task] && w'.threads == w.threads + [th] && Follows(task, th))
    ensures |s'.tasks| == |w'.threads| && forall t :: 0 <= t < |s'.tasks| ==> Follows(s'.tasks[t], w'.threads[t])
  {
    hide Follows;
  }

  lemma StepFollows(o: Options, s: App, w: Watch, e: Event)
    requires Inv(o, s) && Matches(s, w) && Enabled(s, e)
    ensures May(w, e) && Matches(Step(o, s, e), After(o, w, e)) && SameHistories(o, s, w, e)
  {
    SameMoves(o, s, w, e);
    hide SameStep, Step, After, Matches;
    match e
    case Create(_, _) => CreateFollows(o, s, w, e);
    case Send(_, _, _) => SendFollows(o, s, w, e);
    case BeginDecision(_, _, _) => BeginFollows(o, s, w, e);
    case _ =>
      IsReady(o, s, w, e);
      TaskSame(o, s, w, e);
      TaskStepFollows(o, s, w, e);
  }

  lemma IsReady(o: Options, s: App, w: Watch, e: Event)
    requires Inv(o, s) && Matches(s, w) && Enabled(s, e) && May(w, e) && TaskEvent(e)
    ensures Ready(s, w, e)
  {
    TaskHasSession(o, s, w, e.task);
  }

  lemma TaskSame(o: Options, s: App, w: Watch, e: Event)
    requires Ready(s, w, e)
    ensures SameStep(o, s, w, e)
  {
    assert TaskEvent(e);
    hide SameStep, Ready;
    match e
    case Advance(_) => AdvanceSame(o, s, w, e);
    case ModelReply(_, turn, _) =>
      if turn.Text? {
        TextSame(o, s, w, e);
      } else if Input(o, turn).None? {
        RefusalSame(o, s, w, e);
      } else {
        ToolSame(o, s, w, e);
      }
    case Sign(_) => SignSame(o, s, w, e);
    case ToolReply(_, _) => ToolReplySame(o, s, w, e);
    case FinishDecision(_, _) => FinishSame(o, s, w, e);
    case Resume(_) => ResumeSame(o, s, w, e);
    case Drop(_) => DropSame(o, s, w, e);
  }

  // ----- whole runs -----

  /** A run cut in front of its last event. */
  lemma {:induction false} LastEvent(o: Options, s: App, es: seq<Event>)
    requires es != []
    ensures var n := |es| - 1;
      IsRun(o, s, es) <==> IsRun(o, s, es[..n]) && Enabled(RunFrom(o, s, es[..n]), es[n])
    ensures var n := |es| - 1;
      IsRun(o, s, es) ==> RunFrom(o, s, es) == Step(o, RunFrom(o, s, es[..n]), es[n])
    decreases |es|
  {
    var n := |es| - 1;
    if n == 0 {
      assert es[1..] == [] && es[..0] == [];
    } else if Enabled(s, es[0]) {
      LastEvent(o, Step(o, s, es[0]), es[1..]);
      assert es[1..][..n - 1] == es[..n][1..] && es[..n][0] == es[0] && es[1..][n - 1] == es[n];
    } else {
      assert es[..n][0] == es[0];
    }
  }

  /** What a run and the events that make it have in common. */
  ghost predicate Agree(o: Options, es: seq<Event>) {
    && IsRun(o, INIT, es) && Plays(o, es) && Matches(RunFrom(o, INIT, es), Watched(o, es))
    && forall p: Pair :: HistoryAt(RunFrom(o, INIT, es), p) == Told(o, es, p)
  }

  lemma AgreeNext(o: Options, es: seq<Event>)
    requires es != [] && Agree(o, es[..|es| - 1]) && IsRun(o, INIT, es)
    ensures Agree(o, es)
  {
    var n := |es| - 1;
    LastEvent(o, INIT, es);
    RunKeepsInv(o, INIT, es[..n]);
    var s, w := RunFrom(o, INIT, es[..n]), Watched(o, es[..n]);
    StepFollows(o, s, w, es[n]);
    hide Step, Matches, Enabled, Inv, IsRun, RunFrom, After, May, Says;
    assert Watched(o, es) == After(o, w, es[n]);
    forall p: Pair ensures HistoryAt(RunFrom(o, INIT, es), p) == Told(o, es, p) {
      assert Told(o, es, p) == Told(o, es[..n], p) + Says(o, w, es[n], p);
    }
  }

  lemma {:induction false} RunsAgree(o: Options, es: seq<Event>)
    ensures IsRun(o, INIT, es) <==> Plays(o, es)
    ensures Plays(o, es) ==> Agree(o, es)
    decreases |es|
  {
    if es != [] {
      var n := |es| - 1;
      RunsAgree(o, es[..n]);
      LastEvent(o, INIT, es);
      if IsRun(o, INIT, es[..n]) {
        RunKeepsInv(o, INIT, es[..n]);
        SameMoves(o, RunFrom(o, INIT, es[..n]), Watched(o, es[..n]), es[n]);
        hide Agree, Step, Enabled, May, Inv;
        if IsRun(o, INIT, es) { AgreeNext(o, es); }
      }
    }
  }

  /**
   * The protocol's runs are the event lists that the reference plays, and after each the log and the
   * tokens are the reference's, and so are the sessions and what they wait for.
   */
  lemma RunsAreWatched(o: Options, es: seq<Event>)
    ensures IsRun(o, INIT, es) <==> Plays(o, es)
    ensures Plays(o, es) ==>
      var s, w := RunFrom(o, INIT, es), Watched(o, es);
      s.log == w.log && s.tokens == w.tokens && forall p :: SamePair(s, w, p)
  {
    RunsAgree(o, es);
    hide IsRun, RunFrom, Plays, Watched, Told;
  }

  /** After any run the history of a session is what its events put into it, in order. */
  lemma HistoryIsTold(o: Options, es: seq<Event>, owner: JsString, id: JsString)
    requires IsRun(o, INIT, es) && KeyOf(owner, id) in RunFrom(o, INIT, es).sessions
    ensures Plays(o, es)
    ensures RunFrom(o, INIT, es).sessions[KeyOf(owner, id)].history == Told(o, es, (owner, id))
  {
    RunsAgree(o, es);
    assert HistoryAt(RunFrom(o, INIT, es), (owner, id)) == Told(o, es, (owner, id));
  }

  /** After any run a request is answered as the events say. */
  lemma AnswersAreWatched(o: Options, es: seq<Event>, e: Event)
    requires IsRun(o, INIT, es)
    ensures Plays(o, es)
    ensures e.Send? ==> AnswerTo(Watched(o, es), e) == Some(SendStatus(RunFrom(o, INIT, es), e.owner, e.id))
    ensures e.BeginDecision? ==>
      AnswerTo(Watched(o, es), e) == Some(DecisionStatus(RunFrom(o, INIT, es), e.owner, e.id))
  {
    RunsAgree(o, es);
    RunKeepsInv(o, INIT, es);
    SameMoves(o, RunFrom(o, INIT, es), Watched(o, es), e);
  }
}
