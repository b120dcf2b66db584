/**
 * The session and approval protocol of examples/agent-loop.ts as a transition system.
 *
 * One transition is one uninterrupted stretch of JavaScript: from a request, or from the
 * point where an `await` or `yield` resumes, to the next `await` or `yield`. Transitions of
 * different requests interleave freely, so an `await` inside a handler is a place where
 * every other request may run. The decision handler is therefore two transitions,
 * `BeginDecision` (up to the `await` of the verifier) and `FinishDecision` (after it).
 *
 * What the outside world decides is an argument of the event: the model's turn, the tool's
 * result, the fresh id, the verified claims.
 */
module AgentProtocol {
  import opened Common
  import opened SessionKey

  /** A JSON value, by its text. */
  type Json = string

  datatype Role = UserRole | AssistantRole | ToolRole

  datatype HistoryItem = HistoryItem(role: Role, content: string, tool: Option<string>)

  datatype ModelTurn = Text(text: string) | UseTool(name: string, input: Json)

  /** `parse` is the schema: the parsed data, or None when `safeParse` fails. */
  datatype Tool = Tool(risky: bool, parse: Json -> Option<Json>)

  datatype Options = Options(tools: map<string, Tool>, maxSteps: nat)

  datatype Call = Call(id: JsString, name: string, input: Json)

  datatype Session = Session(id: JsString, owner: JsString, history: seq<HistoryItem>, pending: Option<Call>)

  /** The claims of an approval token: `sub`, `sid` and `tcid`. */
  datatype Claims = Claims(sub: JsString, sid: JsString, tcid: JsString)

  datatype AuditKind = ToolCall | ToolError | ApprovalRequested | ApprovalGranted | ApprovalDenied

  /**
   * Everything observable, in order: accepted messages, model calls, pauses, audit events and
   * tool runs. A run started by a decision carries the log position of that decision.
   */
  datatype LogEntry =
    | MessageAccepted(owner: JsString, sid: JsString)
    | ModelCalled(owner: JsString, sid: JsString)
    | Paused(owner: JsString, sid: JsString, call: Call)
    | Audit(kind: AuditKind, owner: JsString, sid: JsString, tool: string, callId: JsString)
    | Ran(owner: JsString, sid: JsString, call: Call, warrant: Option<nat>)

  /** A request in flight and the point where it is suspended. */
  datatype Task =
    | Done
    | Looping(key: JsString, step: nat)                  // top of the `for` in `loop`
    | AwaitingModel(key: JsString, step: nat)            // `await options.model(...)`
    | AwaitingSignature(key: JsString, call: Call)       // `await signer.sign(...)`
    | AwaitingTool(key: JsString, call: Call, next: nat) // `await tool.run(...)`, then step `next`
    | Verifying(key: JsString, call: Call, approve: bool) // `await verifier.verify(...)`
    | Resuming(key: JsString, call: Call, approve: bool, warrant: nat) // `resume()` not yet started

  datatype App = App(
    sessions: map<JsString, Session>,
    tasks: seq<Task>,
    tokens: set<Claims>,
    ids: set<JsString>,
    log: seq<LogEntry>)

  const INIT := App(map[], [], {}, {}, [])

  datatype Event =
    | Create(owner: JsString, id: JsString)
    | Send(owner: JsString, id: JsString, text: string)
    | Advance(task: nat)
    | ModelReply(task: nat, turn: ModelTurn, callId: JsString)
    | Sign(task: nat)
    | ToolReply(task: nat, output: Option<string>)
    | BeginDecision(owner: JsString, id: JsString, approve: bool)
    | FinishDecision(task: nat, verified: Option<Claims>)
    | Resume(task: nat)
    | Drop(task: nat)

  // ----- the transitions -----

  /**
   * When an event can happen. Besides the program points this holds the assumptions on the
   * outside: `randomUUID` is fresh, and only a token the signer issued verifies.
   */
  ghost predicate Enabled(s: App, e: Event) {
    match e
    case Create(_, id) => id !in s.ids
    case Send(_, _, _) => true
    case Advance(t) => t < |s.tasks| && s.tasks[t].Looping? && s.tasks[t].key in s.sessions
    case ModelReply(t, _, callId) =>
      t < |s.tasks| && s.tasks[t].AwaitingModel? && s.tasks[t].key in s.sessions && callId !in s.ids
    case Sign(t) => t < |s.tasks| && s.tasks[t].AwaitingSignature? && s.tasks[t].key in s.sessions
    case ToolReply(t, _) => t < |s.tasks| && s.tasks[t].AwaitingTool? && s.tasks[t].key in s.sessions
    case BeginDecision(_, _, _) => true
    case FinishDecision(t, verified) =>
      t < |s.tasks| && s.tasks[t].Verifying? && s.tasks[t].key in s.sessions
      && (verified.Some? ==> verified.value in s.tokens)
    case Resume(t) => t < |s.tasks| && s.tasks[t].Resuming? && s.tasks[t].key in s.sessions
    case Drop(t) =>
      t < |s.tasks|
      && (s.tasks[t].Looping? || s.tasks[t].AwaitingModel? || s.tasks[t].AwaitingSignature? || s.tasks[t].Resuming?)
  }

  function Push(session: Session, item: HistoryItem): Session {
    session.(history := session.history + [item])
  }

  /** `tool.input.safeParse(input)`. */
  function SafeParse(tool: Tool, input: Json): Option<Json> {
    tool.parse(input)
  }

  function ToolItem(tool: string, content: string): HistoryItem {
    HistoryItem(ToolRole, content, Some(tool))
  }

  const INVALID_INPUT := "Invalid tool input."
  const TOOL_FAILED := "The tool failed."
  const DENIED := "The user denied this action."

  function UnknownTool(name: string): string {
    "Unknown tool \"" + name + "\"."
  }

  function DecisionKind(approve: bool): AuditKind {
    if approve then ApprovalGranted else ApprovalDenied
  }

  /** `session` with its new value, task `t` at its new point, and the new log entries. */
  function Move(s: App, key: JsString, session: Session, t: nat, task: Task, entries: seq<LogEntry>): App
    requires t < |s.tasks|
  {
    s.(sessions := s.sessions[key := session], tasks := s.tasks[t := task], log := s.log + entries)
  }

  ghost function Step(o: Options, s: App, e: Event): App
    requires Enabled(s, e)
  {
    match e
    case Create(owner, id) => StepCreate(s, owner, id)
    case Send(owner, id, text) => StepSend(s, owner, id, text)
    case Advance(t) => StepAdvance(o, s, t)
    case ModelReply(t, turn, callId) => StepModelReply(o, s, t, turn, callId)
    case Sign(t) => StepSign(s, t)
    case ToolReply(t, output) => StepToolReply(s, t, output)
    case BeginDecision(owner, id, approve) => StepBegin(s, owner, id, approve)
    case FinishDecision(t, verified) => StepFinish(s, t, verified)
    case Resume(t) => StepResume(s, t)
    case Drop(t) => StepDrop(s, t)
  }

  function StepCreate(s: App, owner: JsString, id: JsString): App {
    s.(sessions := s.sessions[KeyOf(owner, id) := Session(id, owner, [], None)], ids := s.ids + {id})
  }

  function StepDrop(s: App, t: nat): App
    requires t < |s.tasks|
  {
    s.(tasks := s.tasks[t := Done])
  }

  function StepSend(s: App, owner: JsString, id: JsString, text: string): App {
    var key := KeyOf(owner, id);
    if key !in s.sessions || s.sessions[key].pending.Some? then s
    else
      var session := s.sessions[key];
      s.(sessions := s.sessions[key := Push(session, HistoryItem(UserRole, text, None))],
         tasks := s.tasks + [Looping(key, 0)],
         log := s.log + [MessageAccepted(session.owner, session.id)])
  }

  function StepAdvance(o: Options, s: App, t: nat): App
    requires t < |s.tasks| && s.tasks[t].Looping? && s.tasks[t].key in s.sessions
  {
    var Looping(key, step) := s.tasks[t];
    var session := s.sessions[key];
    if step < o.maxSteps then
      Move(s, key, session, t, AwaitingModel(key, step), [ModelCalled(session.owner, session.id)])
    else s.(tasks := s.tasks[t := Done])
  }

  function StepModelReply(o: Options, s: App, t: nat, turn: ModelTurn, callId: JsString): App
    requires t < |s.tasks| && s.tasks[t].AwaitingModel? && s.tasks[t].key in s.sessions
  {
    var AwaitingModel(key, step) := s.tasks[t];
    var session := s.sessions[key];
    match turn
    case Text(text) => Move(s, key, Push(session, HistoryItem(AssistantRole, text, None)), t, Done, [])
    case UseTool(name, input) =>
      match Refusal(o, name, input)
      case Some(why) => Move(s, key, Push(session, ToolItem(name, why)), t, Looping(key, step + 1), [])
      case None =>
        UseKnownTool(o, s.(ids := s.ids + {callId}), t, key,
            Call(callId, name, SafeParse(o.tools[name], input).value), step)
  }

  /** What the model is told about a tool that does not exist or input that does not fit. */
  function Refusal(o: Options, name: string, input: Json): (r: Option<string>)
    ensures r.None? <==> name in o.tools && SafeParse(o.tools[name], input).Some?
  {
    if name !in o.tools then Some(UnknownTool(name))
    else if SafeParse(o.tools[name], input).None? then Some(INVALID_INPUT)
    else None
  }

  /** A risky call pauses for an approval, a safe one runs at once. */
  function UseKnownTool(o: Options, s: App, t: nat, key: JsString, call: Call, step: nat): App
    requires t < |s.tasks| && key in s.sessions && call.name in o.tools
  {
    var session := s.sessions[key];
    if o.tools[call.name].risky then
      Move(s, key, session.(pending := Some(call)), t, AwaitingSignature(key, call),
           [Paused(session.owner, session.id, call)])
    else
      Move(s, key, session, t, AwaitingTool(key, call, step + 1),
           [Audit(ToolCall, session.owner, session.id, call.name, call.id),
            Ran(session.owner, session.id, call, None)])
  }

  function StepSign(s: App, t: nat): App
    requires t < |s.tasks| && s.tasks[t].AwaitingSignature? && s.tasks[t].key in s.sessions
  {
    var AwaitingSignature(key, call) := s.tasks[t];
    var session := s.sessions[key];
    Move(s, key, session, t, Done, [Audit(ApprovalRequested, session.owner, session.id, call.name, call.id)])
    .(tokens := s.tokens + {Claims(session.owner, session.id, call.id)})
  }

  function StepToolReply(s: App, t: nat, output: Option<string>): App
    requires t < |s.tasks| && s.tasks[t].AwaitingTool? && s.tasks[t].key in s.sessions
  {
    var AwaitingTool(key, call, next) := s.tasks[t];
    var session := s.sessions[key];
    match output
    case Some(content) => Move(s, key, Push(session, ToolItem(call.name, content)), t, Looping(key, next), [])
    case None =>
      Move(s, key, Push(session, ToolItem(call.name, TOOL_FAILED)), t, Looping(key, next),
           [Audit(ToolError, session.owner, session.id, call.name, call.id)])
  }

  function StepBegin(s: App, owner: JsString, id: JsString, approve: bool): App {
    var key := KeyOf(owner, id);
    if key !in s.sessions || s.sessions[key].pending.None? then s
    else s.(tasks := s.tasks + [Verifying(key, s.sessions[key].pending.value, approve)])
  }

  /** The check after the verifier: bound to this user, this session and this tool call. */
  predicate Matches(claims: Claims, session: Session, call: Call) {
    claims == Claims(session.owner, session.id, call.id)
  }

  function StepFinish(s: App, t: nat, verified: Option<Claims>): App
    requires t < |s.tasks| && s.tasks[t].Verifying? && s.tasks[t].key in s.sessions
  {
    var Verifying(key, call, approve) := s.tasks[t];
    var session := s.sessions[key];
    if verified.None? || !Matches(verified.value, session, call) then s.(tasks := s.tasks[t := Done])
    else
      Move(s, key, session.(pending := None), t, Resuming(key, call, approve, |s.log|),
           [Audit(DecisionKind(approve), session.owner, session.id, call.name, call.id)])
  }

  function StepResume(s: App, t: nat): App
    requires t < |s.tasks| && s.tasks[t].Resuming? && s.tasks[t].key in s.sessions
  {
    var Resuming(key, call, approve, warrant) := s.tasks[t];
    var session := s.sessions[key];
    if approve then
      Move(s, key, session, t, AwaitingTool(key, call, 0),
           [Audit(ToolCall, session.owner, session.id, call.name, call.id),
            Ran(session.owner, session.id, call, Some(warrant))])
    else
      Move(s, key, Push(session, ToolItem(call.name, DENIED)), t, Looping(key, 0), [])
  }

  /** HTTP status of the two handlers that look a session up (lines 217-220, 244-246). */
  datatype Status = Success200 | NotFound404 | Conflict409

  function SendStatus(s: App, owner: JsString, id: JsString): Status {
    var key := KeyOf(owner, id);
    if key !in s.sessions then NotFound404
    else if s.sessions[key].pending.Some? then Conflict409
    else Success200
  }

  function DecisionStatus(s: App, owner: JsString, id: JsString): Status {
    var key := KeyOf(owner, id);
    if key !in s.sessions then NotFound404
    else if s.sessions[key].pending.None? then Conflict409
    else Success200
  }

  // ----- runs -----

  ghost predicate IsRun(o: Options, s: App, es: seq<Event>)
    decreases |es|
  {
    es == [] || (Enabled(s, es[0]) && IsRun(o, Step(o, s, es[0]), es[1..]))
  }

  ghost function RunFrom(o: Options, s: App, es: seq<Event>): App
    requires IsRun(o, s, es)
    decreases |es|
  {
    if es == [] then s else RunFrom(o, Step(o, s, es[0]), es[1..])
  }

  // ----- what every reachable state satisfies -----

  predicate IsDecision(e: LogEntry) {
    e.Audit? && (e.kind == ApprovalGranted || e.kind == ApprovalDenied)
  }

  ghost predicate Unspent(log: seq<LogEntry>, g: nat) {
    forall e :: e in log && e.Ran? ==> e.warrant != Some(g)
  }

  /** What must stand in the log before an entry. */
  ghost predicate EntryOk(o: Options, before: seq<LogEntry>, e: LogEntry) {
    match e
    case Paused(owner, sid, call) =>
      call.name in o.tools && o.tools[call.name].risky
      && forall p :: p in before && p.Paused? ==> p.call.id != call.id
    case Audit(kind, owner, sid, tool, callId) =>
      if kind == ApprovalRequested then
        exists input :: Paused(owner, sid, Call(callId, tool, input)) in before
      else if IsDecision(e) then Audit(ApprovalRequested, owner, sid, tool, callId) in before
      else true
    case Ran(owner, sid, call, warrant) =>
      before != [] && before[|before| - 1] == Audit(ToolCall, owner, sid, call.name, call.id)
      && call.name in o.tools
      && (match warrant
          case None => !o.tools[call.name].risky
          case Some(g) =>
            g < |before| && before[g] == Audit(ApprovalGranted, owner, sid, call.name, call.id)
            && Paused(owner, sid, call) in before
            && Unspent(before, g))
    case _ => true
  }

  ghost predicate LogOk(o: Options, log: seq<LogEntry>) {
    forall i :: 0 <= i < |log| ==> EntryOk(o, log[..i], log[i])
  }

  ghost predicate SessionsOk(s: App) {
    forall k :: k in s.sessions ==>
      var session := s.sessions[k];
      k == KeyOf(session.owner, session.id) && session.id in s.ids
      && (session.pending.Some? ==> Paused(session.owner, session.id, session.pending.value) in s.log)
  }

  ghost predicate IdsOk(s: App) {
    forall e :: e in s.log ==>
      (e.Paused? ==> e.call.id in s.ids) && (e.Audit? ==> e.callId in s.ids)
  }

  ghost predicate TokenOk(s: App, c: Claims) {
    exists name, input ::
      Paused(c.sub, c.sid, Call(c.tcid, name, input)) in s.log
      && Audit(ApprovalRequested, c.sub, c.sid, name, c.tcid) in s.log
  }

  ghost predicate TaskOk(o: Options, s: App, task: Task) {
    task.Done?
    || (task.key in s.sessions
        && var session := s.sessions[task.key];
           match task
           case Looping(_, step) => step <= o.maxSteps
           case AwaitingModel(_, step) => step < o.maxSteps
           case AwaitingTool(_, call, next) => next <= o.maxSteps && call.id in s.ids
           case AwaitingSignature(_, call) => Paused(session.owner, session.id, call) in s.log
           case Verifying(_, call, _) => Paused(session.owner, session.id, call) in s.log
           case Resuming(_, call, approve, g) =>
             Paused(session.owner, session.id, call) in s.log
             && g < |s.log|
             && s.log[g] == Audit(DecisionKind(approve), session.owner, session.id, call.name, call.id)
             && Unspent(s.log, g))
  }

  ghost predicate WarrantsDistinct(s: App) {
    forall i, j :: 0 <= i < j < |s.tasks| && s.tasks[i].Resuming? && s.tasks[j].Resuming? ==>
      s.tasks[i].warrant != s.tasks[j].warrant
  }

  ghost predicate Inv(o: Options, s: App) {
    && LogOk(o, s.log)
    && SessionsOk(s)
    && IdsOk(s)
    && (forall c :: c in s.tokens ==> TokenOk(s, c))
    && (forall t :: 0 <= t < |s.tasks| ==> TaskOk(o, s, s.tasks[t]))
    && WarrantsDistinct(s)
  }
}
