/**
 * examples/agent-loop.ts in its own form: a `Map` of session records that the handlers and the
 * suspended generators update in place. Each method is the code between two suspension points
 * and is proved to be the transition of AgentProtocol with the same name. Its state stays one
 * that a run of the protocol ends in (`OnRun`), so what holds after every run holds of the object, as
 * `RiskyRunsWereApproved` shows.
 */
module AgentServer {
  import opened Common
  import opened SessionKey
  import P = AgentProtocol
  import R = AgentRuns

  /** The `Session` interface (lines 81-86). */
  class SessionRecord {
    const id: JsString
    const owner: JsString
    var history: seq<P.HistoryItem>
    var pending: Option<P.Call>

    constructor (id: JsString, owner: JsString)
      ensures this.id == id && this.owner == owner && history == [] && pending == None
    {
      this.id := id;
      this.owner := owner;
      history := [];
      pending := None;
    }

    function Key(): JsString {
      KeyOf(owner, id)
    }

    ghost function Value(): P.Session
      reads this
    {
      P.Session(id, owner, history, pending)
    }

    method Push(item: P.HistoryItem)
      modifies this`history
      ensures Value() == P.Push(old(Value()), item)
    {
      history := history + [item];
    }
  }

  /** A generator or handler in flight. It holds the session record itself, as its closure does. */
  datatype Frame =
    | Finished
    | Looping(session: SessionRecord, step: nat)
    | AwaitingModel(session: SessionRecord, step: nat)
    | AwaitingSignature(session: SessionRecord, call: P.Call)
    | AwaitingTool(session: SessionRecord, call: P.Call, next: nat)
    | Verifying(session: SessionRecord, call: P.Call, approve: bool)
    | Resuming(session: SessionRecord, call: P.Call, approve: bool, warrant: nat)
  {
    function Task(): P.Task {
      match this
      case Finished => P.Done
      case Looping(s, step) => P.Looping(s.Key(), step)
      case AwaitingModel(s, step) => P.AwaitingModel(s.Key(), step)
      case AwaitingSignature(s, call) => P.AwaitingSignature(s.Key(), call)
      case AwaitingTool(s, call, next) => P.AwaitingTool(s.Key(), call, next)
      case Verifying(s, call, approve) => P.Verifying(s.Key(), call, approve)
      case Resuming(s, call, approve, warrant) => P.Resuming(s.Key(), call, approve, warrant)
    }
  }

  function Tasks(frames: seq<Frame>): seq<P.Task> {
    seq(|frames|, i requires 0 <= i < |frames| => frames[i].Task())
  }

  lemma TasksReplace(frames: seq<Frame>, t: nat, frame: Frame)
    requires t < |frames|
    ensures Tasks(frames[t := frame]) == Tasks(frames)[t := frame.Task()]
  {
  }

  lemma TasksAppend(frames: seq<Frame>, frame: Frame)
    ensures Tasks(frames + [frame]) == Tasks(frames) + [frame.Task()]
  {
  }

  /** Session ids are issued, so an id that is not gives no known key. */
  lemma KeyIsFresh(o: P.Options, s: P.App, owner: JsString, id: JsString)
    requires P.Inv(o, s) && id !in s.ids
    ensures KeyOf(owner, id) !in s.sessions
  {
    if KeyOf(owner, id) in s.sessions {
      KeyOfInjective(owner, id, s.sessions[KeyOf(owner, id)].owner, s.sessions[KeyOf(owner, id)].id);
    }
  }

  /** Some run of the protocol ends in `s`. */
  ghost predicate Reached(o: P.Options, s: P.App) {
    exists es :: P.IsRun(o, P.INIT, es) && P.RunFrom(o, P.INIT, es) == s
  }

  lemma InitIsReached(o: P.Options)
    ensures Reached(o, P.INIT)
  {
    assert P.IsRun(o, P.INIT, []) && P.RunFrom(o, P.INIT, []) == P.INIT;
  }

  lemma RunGoesOn(o: P.Options, s: P.App, e: P.Event)
    requires Reached(o, s) && P.Enabled(s, e)
    ensures Reached(o, P.Step(o, s, e))
  {
    hide P.Step, P.Enabled, P.IsRun, P.RunFrom;
    var es :| P.IsRun(o, P.INIT, es) && P.RunFrom(o, P.INIT, es) == s;
    var es' := R.Then(o, P.INIT, es, e);
  }

  /** A program point at which a task may end early. */
  predicate Droppable(frame: Frame) {
    frame.Looping? || frame.AwaitingModel? || frame.AwaitingSignature? || frame.Resuming?
  }

  class AgentServer {
    const options: P.Options
    var sessions: map<JsString, SessionRecord>
    var frames: seq<Frame>
    var log: seq<P.LogEntry>
    /** What the assumptions on the signer and on `randomUUID` speak about. */
    ghost var tokens: set<P.Claims>
    ghost var ids: set<JsString>

    ghost predicate Valid()
      reads this`sessions, this`frames
    {
      && (forall k :: k in sessions ==> sessions[k].Key() == k)
      && (forall i :: 0 <= i < |frames| && !frames[i].Finished? ==> Holds(frames[i].session))
    }

    /** The record is the one the map holds under its key. */
    ghost predicate Holds(session: SessionRecord)
      reads this`sessions
    {
      session.Key() in sessions && sessions[session.Key()] == session
    }

    ghost function Records(): set<SessionRecord>
      reads this`sessions
    {
      set k | k in sessions :: sessions[k]
    }

    ghost function Sessions(): map<JsString, P.Session>
      reads this`sessions, Records()
    {
      map k | k in sessions :: sessions[k].Value()
    }

    ghost function State(): P.App
      reads this`sessions, this`frames, this`log, this`tokens, this`ids, Records()
    {
      P.App(Sessions(), Tasks(frames), tokens, ids, log)
    }

    /** The object is in a state that a run of the protocol ends in. */
    ghost predicate OnRun()
      reads this`sessions, this`frames, this`log, this`tokens, this`ids, Records()
    {
      Reached(options, State())
    }

    /** A task works on a session of the map. */
    twostate lemma TaskAt(t: nat)
      requires old(Valid()) && t < |old(frames)| && !old(frames)[t].Finished?
      ensures var s := old(State());
        |s.tasks| == |old(frames)| && s.tasks[t] == old(frames)[t].Task()
        && old(frames)[t].session.Key() in s.sessions
    {
    }

    /** The event can happen: the task is at its program point, ids are fresh and tokens were issued. */
    ghost predicate MayHappen(e: P.Event)
      reads this`frames, this`ids, this`tokens
    {
      match e
      case Create(_, id) => id !in ids
      case Send(_, _, _) => true
      case Advance(t) => t < |frames| && frames[t].Looping?
      case ModelReply(t, _, callId) => t < |frames| && frames[t].AwaitingModel? && callId !in ids
      case Sign(t) => t < |frames| && frames[t].AwaitingSignature?
      case ToolReply(t, _) => t < |frames| && frames[t].AwaitingTool?
      case BeginDecision(_, _, _) => true
      case FinishDecision(t, verified) =>
        t < |frames| && frames[t].Verifying? && (verified.Some? ==> verified.value in tokens)
      case Resume(t) => t < |frames| && frames[t].Resuming?
      case Drop(t) => t < |frames| && Droppable(frames[t])
    }

    twostate lemma MayHappenIsEnabled(e: P.Event)
      requires old(Valid()) && old(MayHappen(e))
      ensures P.Enabled(old(State()), e)
    {
      match e
      case Create(_, _) =>
      case Send(_, _, _) =>
      case BeginDecision(_, _, _) =>
      case _ => TaskAt(e.task);
    }

    /** A call that makes such a transition leaves the object on a run. */
    twostate lemma StaysOnRun(e: P.Event)
      requires old(Valid()) && old(MayHappen(e))
      requires P.Enabled(old(State()), e) ==> State() == P.Step(options, old(State()), e)
      ensures old(OnRun()) ==> OnRun()
    {
      MayHappenIsEnabled(e);
      hide Reached, P.Enabled, P.Step;
      if old(OnRun()) { RunGoesOn(options, old(State()), e); }
    }

    /** Updating one record is updating one entry of the abstract map. */
    twostate lemma RecordUpdated(session: SessionRecord)
      requires old(Valid()) && old(Holds(session)) && sessions == old(sessions)
      requires forall r :: r in old(Records()) && r != session ==> unchanged(r)
      ensures Sessions() == old(Sessions())[session.Key() := session.Value()]
    {
      forall k | k in sessions && k != session.Key()
        ensures sessions[k].Value() == old(sessions[k].Value())
      {
        assert sessions[k] in old(Records()) && sessions[k] != session;
      }
    }

    constructor (options: P.Options)
      ensures Valid() && OnRun() && this.options == options && State() == P.INIT
    {
      this.options := options;
      sessions := map[];
      frames := [];
      log := [];
      tokens := {};
      ids := {};
      InitIsReached(options);
    }

    /** Puts task `t` at its next suspension point and extends the log. */
    method Suspend(t: nat, frame: Frame, entries: seq<P.LogEntry>)
      requires Valid() && t < |frames| && (!frame.Finished? ==> Holds(frame.session))
      modifies this`frames, this`log
      ensures Valid() && log == old(log) + entries && Sessions() == old(Sessions())
      ensures Tasks(frames) == old(Tasks(frames))[t := frame.Task()]
    {
      TasksReplace(frames, t, frame);
      frames := frames[t := frame];
      log := log + entries;
    }

    /** A handler starts a task of its own. */
    method Start(frame: Frame)
      requires Valid() && !frame.Finished? && Holds(frame.session)
      modifies this`frames
      ensures Valid() && Tasks(frames) == old(Tasks(frames)) + [frame.Task()] && Sessions() == old(Sessions())
    {
      TasksAppend(frames, frame);
      frames := frames + [frame];
    }

    /** Appends to a session's history and suspends. */
    method PushAndSuspend(session: SessionRecord, item: P.HistoryItem, t: nat, frame: Frame, entries: seq<P.LogEntry>)
      requires Valid() && Holds(session) && t < |frames| && (!frame.Finished? ==> frame.session == session)
      modifies this`frames, this`log, session`history
      ensures Valid() && sessions == old(sessions)
      ensures State() == P.Move(old(State()), session.Key(), P.Push(old(session.Value()), item), t,
          frame.Task(), entries)
    {
      Suspend(t, frame, entries);
      session.Push(item);
      RecordUpdated(session);
    }

    /**
     * `POST /sessions` (lines 193-198). An id that is not new replaces the record in the map, and a
     * task that holds the old one is cut off from it; a new id never does.
     */
    method CreateSession(owner: JsString, id: JsString)
      requires Valid()
      modifies this`sessions, this`ids
      ensures State() == P.StepCreate(old(State()), owner, id)
      ensures (forall f :: f in frames && !f.Finished? ==> f.session.Key() != KeyOf(owner, id)) ==> Valid()
      ensures old(OnRun()) && id !in old(ids) ==> Valid() && OnRun()
    {
      hide OnRun, KeyOf;
      if OnRun() && id !in ids { FreshKey(owner, id); }
      var record := new SessionRecord(id, owner);
      sessions := sessions[KeyOf(owner, id) := record];
      ids := ids + {id};
      RecordAdded(record);
      if old(MayHappen(P.Create(owner, id))) { StaysOnRun(P.Create(owner, id)); }
    }

    twostate lemma RecordAdded(new record: SessionRecord)
      requires old(Valid()) && sessions == old(sessions)[record.Key() := record]
      requires forall r :: r in old(Records()) ==> unchanged(r)
      ensures Sessions() == old(Sessions())[record.Key() := record.Value()]
    {
      hide Valid, KeyOf;
      var before, after, key := old(Sessions()), Sessions(), record.Key();
      assert after.Keys == before.Keys + {key};
      forall k | k in before && k != key
        ensures after[k] == before[k]
      {
        assert old(sessions)[k] in old(Records());
      }
    }

    /** On a run a new id gives a new key. */
    lemma FreshKey(owner: JsString, id: JsString)
      requires Valid() && OnRun() && id !in ids
      ensures KeyOf(owner, id) !in sessions
    {
      var es :| P.IsRun(options, P.INIT, es) && P.RunFrom(options, P.INIT, es) == State();
      R.ReachableInv(options, es);
      KeyIsFresh(options, State(), owner, id);
    }

    /** The message is appended and a loop starts (lines 219-222). */
    method AcceptMessage(session: SessionRecord, text: string)
      requires Valid() && Holds(session)
      modifies this`frames, this`log, session`history
      ensures Valid() && sessions == old(sessions)
      ensures var item := P.HistoryItem(P.UserRole, text, None);
        State() == old(State()).(
          sessions := old(Sessions())[session.Key() := P.Push(old(session.Value()), item)],
          tasks := old(Tasks(frames)) + [P.Looping(session.Key(), 0)],
          log := old(log) + [P.MessageAccepted(session.owner, session.id)])
    {
      session.Push(P.HistoryItem(P.UserRole, text, None));
      log := log + [P.MessageAccepted(session.owner, session.id)];
      Start(Looping(session, 0));
      RecordUpdated(session);
    }

    /** `POST /sessions/:id/messages` (lines 216-223). */
    method SendMessage(owner: JsString, id: JsString, text: string) returns (status: P.Status)
      requires Valid()
      modifies this`frames, this`log, Records()
      ensures Valid() && sessions == old(sessions)
      ensures State() == P.StepSend(old(State()), owner, id, text)
      ensures status == P.SendStatus(old(State()), owner, id)
      ensures old(OnRun()) ==> OnRun()
    {
      hide OnRun, P.Enabled;
      var key := KeyOf(owner, id);
      if key !in sessions {
        status := P.NotFound404;
      } else if sessions[key].pending.Some? {
        status := P.Conflict409;
      } else {
        AcceptMessage(sessions[key], text);
        status := P.Success200;
      }
      StaysOnRun(P.Send(owner, id, text));
    }

    /** Top of the `for` in `loop` (lines 148-150, 184). */
    method NextStep(t: nat)
      requires Valid() && t < |frames| && frames[t].Looping?
      modifies this`frames, this`log
      ensures Valid() && State() == P.StepAdvance(options, old(State()), t)
      ensures old(OnRun()) ==> OnRun()
    {
      hide OnRun, P.Enabled;
      var Looping(session, step) := frames[t];
      if step < options.maxSteps {
        Suspend(t, AwaitingModel(session, step), [P.ModelCalled(session.owner, session.id)]);
        assert Sessions() == old(Sessions())[session.Key() := session.Value()];
      } else {
        Suspend(t, Finished, []);
      }
      StaysOnRun(P.Advance(t));
    }

    /** After `await options.model(...)` (lines 151-182). */
    method ModelReplied(t: nat, turn: P.ModelTurn, callId: JsString)
      requires Valid() && t < |frames| && frames[t].AwaitingModel?
      modifies this`frames, this`log, this`ids, Records()
      ensures Valid() && sessions == old(sessions)
      ensures State() == P.StepModelReply(options, old(State()), t, turn, callId)
      ensures old(OnRun()) && callId !in old(ids) ==> OnRun()
    {
      hide OnRun, P.Enabled;
      var AwaitingModel(session, step) := frames[t];
      match turn {
      case Text(text) =>
        PushAndSuspend(session, P.HistoryItem(P.AssistantRole, text, None), t, Finished, []);
      case UseTool(name, input) =>
        ToolRequested(t, name, input, callId);
      }
      if old(MayHappen(P.ModelReply(t, turn, callId))) { StaysOnRun(P.ModelReply(t, turn, callId)); }
    }

    /** The model asks for a tool (lines 156-182). */
    method ToolRequested(t: nat, name: string, input: P.Json, callId: JsString)
      requires Valid() && t < |frames| && frames[t].AwaitingModel?
      modifies this`frames, this`log, this`ids, Records()
      ensures Valid() && sessions == old(sessions)
      ensures State() == P.StepModelReply(options, old(State()), t, P.UseTool(name, input), callId)
    {
      if name !in options.tools {
        Refuse(t, name, input, callId, P.UnknownTool(name));
      } else {
        var parsed := P.SafeParse(options.tools[name], input);
        if parsed.None? {
          Refuse(t, name, input, callId, P.INVALID_INPUT);
        } else {
          var AwaitingModel(session, step) := frames[t];
          UseKnownTool(t, session, P.Call(callId, name, parsed.value), step);
        }
      }
    }

    /** An unknown tool or invalid input: the loop goes on with that as the tool's output. */
    method Refuse(t: nat, name: string, input: P.Json, callId: JsString, why: string)
      requires Valid() && t < |frames| && frames[t].AwaitingModel? && P.Refusal(options, name, input) == Some(why)
      modifies this`frames, this`log, Records()
      ensures Valid() && sessions == old(sessions) && ids == old(ids)
      ensures State() == P.StepModelReply(options, old(State()), t, P.UseTool(name, input), callId)
    {
      var AwaitingModel(session, step) := frames[t];
      PushAndSuspend(session, P.ToolItem(name, why), t, Looping(session, step + 1), []);
    }

    /** A known tool with valid input: pause for an approval, or run at once (lines 166-182). */
    method UseKnownTool(t: nat, session: SessionRecord, call: P.Call, step: nat)
      requires Valid() && Holds(session) && t < |frames| && call.name in options.tools
      modifies this`frames, this`log, this`ids, session`pending
      ensures Valid() && sessions == old(sessions)
      ensures State() == P.UseKnownTool(options, old(State()).(ids := old(ids) + {call.id}), t, session.Key(),
          call, step)
    {
      if options.tools[call.name].risky {
        Pause(t, session, call);
      } else {
        RunAtOnce(t, session, call, step + 1);
      }
    }

    /** `crypto.randomUUID()` for a tool call (line 166). */
    ghost method IssueId(id: JsString)
      requires Valid()
      modifies this`ids
      ensures Valid() && State() == old(State()).(ids := old(ids) + {id})
    {
      ids := ids + {id};
      assert Sessions() == old(Sessions());
    }

    /** A risky call becomes the pending one (line 168). */
    method Pause(t: nat, session: SessionRecord, call: P.Call)
      requires Valid() && Holds(session) && t < |frames|
      modifies this`frames, this`log, this`ids, session`pending
      ensures Valid() && sessions == old(sessions)
      ensures State() == P.Move(old(State()), session.Key(), old(session.Value()).(pending := Some(call)), t,
                                P.AwaitingSignature(session.Key(), call),
                                [P.Paused(session.owner, session.id, call)]).(ids := old(ids) + {call.id})
    {
      Suspend(t, AwaitingSignature(session, call), [P.Paused(session.owner, session.id, call)]);
      session.pending := Some(call);
      ids := ids + {call.id};
      RecordUpdated(session);
    }

    /** `execute` up to `await tool.run(...)` (lines 134-137): audit, then the run. */
    method Execute(t: nat, session: SessionRecord, call: P.Call, warrant: Option<nat>, next: nat)
      requires Valid() && Holds(session) && t < |frames|
      modifies this`frames, this`log
      ensures Valid()
      ensures State() == P.Move(old(State()), session.Key(), session.Value(), t,
                                P.AwaitingTool(session.Key(), call, next),
                                [P.Audit(P.ToolCall, session.owner, session.id, call.name, call.id),
                                 P.Ran(session.owner, session.id, call, warrant)])
    {
      Suspend(t, AwaitingTool(session, call, next),
              [P.Audit(P.ToolCall, session.owner, session.id, call.name, call.id),
               P.Ran(session.owner, session.id, call, warrant)]);
      assert Sessions() == old(Sessions())[session.Key() := session.Value()];
    }

    /** A safe call runs at once (line 182). */
    method RunAtOnce(t: nat, session: SessionRecord, call: P.Call, next: nat)
      requires Valid() && Holds(session) && t < |frames|
      modifies this`frames, this`log, this`ids
      ensures Valid()
      ensures State() == P.Move(old(State()).(ids := old(ids) + {call.id}), session.Key(), session.Value(), t,
                                P.AwaitingTool(session.Key(), call, next),
                                [P.Audit(P.ToolCall, session.owner, session.id, call.name, call.id),
                                 P.Ran(session.owner, session.id, call, None)])
    {
      IssueId(call.id);
      Execute(t, session, call, None, next);
    }

    /** After `await signer.sign(...)` (lines 177-180). */
    method Signed(t: nat) returns (token: P.Claims)
      requires Valid() && t < |frames| && frames[t].AwaitingSignature?
      modifies this`frames, this`log, this`tokens
      ensures Valid() && State() == P.StepSign(old(State()), t)
      ensures tokens == old(tokens) + {token}
      ensures old(OnRun()) ==> OnRun()
    {
      hide OnRun, P.Enabled;
      var AwaitingSignature(session, call) := frames[t];
      token := P.Claims(session.owner, session.id, call.id);
      tokens := tokens + {token};
      Suspend(t, Finished, [P.Audit(P.ApprovalRequested, session.owner, session.id, call.name, call.id)]);
      RecordUpdated(session);
      StaysOnRun(P.Sign(t));
    }

    /** After `await tool.run(...)` (lines 138-143): the output as JSON, or None when it threw. */
    method ToolReturned(t: nat, output: Option<string>)
      requires Valid() && t < |frames| && frames[t].AwaitingTool?
      modifies this`frames, this`log, Records()
      ensures Valid() && sessions == old(sessions)
      ensures State() == P.StepToolReply(old(State()), t, output)
      ensures old(OnRun()) ==> OnRun()
    {
      hide OnRun, P.Enabled;
      var AwaitingTool(session, call, next) := frames[t];
      match output {
      case Some(content) =>
        PushAndSuspend(session, P.ToolItem(call.name, content), t, Looping(session, next), []);
      case None =>
        PushAndSuspend(session, P.ToolItem(call.name, P.TOOL_FAILED), t, Looping(session, next),
                       [P.Audit(P.ToolError, session.owner, session.id, call.name, call.id)]);
      }
      StaysOnRun(P.ToolReply(t, output));
    }

    /** `POST /sessions/:id/approvals` up to `await verifier.verify(...)` (lines 243-249). */
    method BeginDecision(owner: JsString, id: JsString, approve: bool) returns (status: P.Status)
      requires Valid()
      modifies this`frames
      ensures Valid() && State() == P.StepBegin(old(State()), owner, id, approve)
      ensures status == P.DecisionStatus(old(State()), owner, id)
      ensures old(OnRun()) ==> OnRun()
    {
      hide OnRun, P.Enabled;
      status := StartVerifying(owner, id, approve);
      StaysOnRun(P.BeginDecision(owner, id, approve));
    }

    /** The handler reads the pending call (lines 244-249). */
    method StartVerifying(owner: JsString, id: JsString, approve: bool) returns (status: P.Status)
      requires Valid()
      modifies this`frames
      ensures Valid() && State() == P.StepBegin(old(State()), owner, id, approve)
      ensures status == P.DecisionStatus(old(State()), owner, id)
    {
      var key := KeyOf(owner, id);
      if key !in sessions { return P.NotFound404; }
      var session := sessions[key];
      if session.pending.None? { return P.Conflict409; }
      Start(Verifying(session, session.pending.value, approve));
      return P.Success200;
    }

    /** The rest of the decision handler (lines 250-270); false is the 403 answer. */
    method FinishDecision(t: nat, verified: Option<P.Claims>) returns (accepted: bool)
      requires Valid() && t < |frames| && frames[t].Verifying?
      modifies this`frames, this`log, Records()
      ensures Valid() && sessions == old(sessions)
      ensures State() == P.StepFinish(old(State()), t, verified)
      ensures accepted <==> log != old(log)
      ensures old(OnRun()) && (verified.Some? ==> verified.value in old(tokens)) ==> OnRun()
    {
      hide OnRun, P.Enabled;
      accepted := Settle(t, verified);
      if old(MayHappen(P.FinishDecision(t, verified))) { StaysOnRun(P.FinishDecision(t, verified)); }
    }

    /** The check of the claims (lines 250-258). */
    method Settle(t: nat, verified: Option<P.Claims>) returns (accepted: bool)
      requires Valid() && t < |frames| && frames[t].Verifying?
      modifies this`frames, this`log, Records()
      ensures Valid() && sessions == old(sessions)
      ensures State() == P.StepFinish(old(State()), t, verified)
      ensures accepted <==> log != old(log)
    {
      var Verifying(session, call, approve) := frames[t];
      accepted := verified.Some? && verified.value.sub == session.owner
        && verified.value.sid == session.id && verified.value.tcid == call.id;
      if accepted {
        Accept(t, session, call, approve);
      } else {
        Suspend(t, Finished, []);
      }
    }

    /** Clears the pending call before anything runs (lines 258-260). */
    method Accept(t: nat, session: SessionRecord, call: P.Call, approve: bool)
      requires Valid() && Holds(session) && t < |frames|
      modifies this`frames, this`log, session`pending
      ensures Valid() && sessions == old(sessions)
      ensures State() == P.Move(old(State()), session.Key(), old(session.Value()).(pending := None), t,
                                P.Resuming(session.Key(), call, approve, |old(log)|),
                                [P.Audit(P.DecisionKind(approve), session.owner, session.id, call.name, call.id)])
    {
      Suspend(t, Resuming(session, call, approve, |log|),
              [P.Audit(P.DecisionKind(approve), session.owner, session.id, call.name, call.id)]);
      session.pending := None;
      RecordUpdated(session);
    }

    /** Start of `resume()` (lines 262-268). */
    method ResumeDecision(t: nat)
      requires Valid() && t < |frames| && frames[t].Resuming?
      modifies this`frames, this`log, Records()
      ensures Valid() && sessions == old(sessions)
      ensures State() == P.StepResume(old(State()), t)
      ensures old(OnRun()) ==> OnRun()
    {
      hide OnRun, P.Enabled;
      var Resuming(session, call, approve, warrant) := frames[t];
      if approve {
        Execute(t, session, call, Some(warrant), 0);
      } else {
        PushAndSuspend(session, P.ToolItem(call.name, P.DENIED), t, Looping(session, 0), []);
      }
      StaysOnRun(P.Resume(t));
    }

    /** The stream is cancelled at a `yield`, or the model or the signer rejects. */
    method DropTask(t: nat)
      requires Valid() && t < |frames|
      modifies this`frames, this`log
      ensures Valid() && State() == P.StepDrop(old(State()), t)
      ensures old(OnRun()) && Droppable(old(frames)[t]) ==> OnRun()
    {
      hide OnRun, P.Enabled;
      Suspend(t, Finished, []);
      if old(MayHappen(P.Drop(t))) { StaysOnRun(P.Drop(t)); }
    }

    /** What holds of every run holds of the object: a risky run in its log was approved. */
    lemma RiskyRunsWereApproved(i: nat) returns (p: nat, r: nat, g: nat)
      requires OnRun() && i < |log| && log[i].Ran?
      requires log[i].call.name in options.tools && options.tools[log[i].call.name].risky
      ensures R.ApprovedBy(log, i, p, r, g)
      ensures forall j :: 0 <= j < |log| && j != i && log[j].Ran? ==> log[j].warrant != Some(g)
    {
      var es :| P.IsRun(options, P.INIT, es) && P.RunFrom(options, P.INIT, es) == State();
      p, r, g := R.RiskyRunsAreApproved(options, es, i);
    }
  }
}
