/** Safety of the approval protocol over every run (see AgentProtocol). */
module AgentSafety {
  import opened Common
  import opened SessionKey
  import opened AgentProtocol

  // ----- the invariant is kept by every transition -----

  lemma LogSnoc(o: Options, log: seq<LogEntry>, e: LogEntry)
    requires LogOk(o, log) && EntryOk(o, log, e)
    ensures LogOk(o, log + [e])
  {
    forall i | 0 <= i < |log + [e]|
      ensures EntryOk(o, (log + [e])[..i], (log + [e])[i])
    {
      if i == |log| {
        assert (log + [e])[..i] == log;
      } else {
        assert (log + [e])[..i] == log[..i];
      }
    }
  }

  /** Sessions keep their identity, and ids and log only grow. */
  ghost predicate Extends(s: App, s': App) {
    && (forall k :: k in s.sessions ==>
          k in s'.sessions && s'.sessions[k].owner == s.sessions[k].owner && s'.sessions[k].id == s.sessions[k].id)
    && s.ids <= s'.ids
    && s.log <= s'.log
  }

  lemma TaskMono(o: Options, s: App, s': App, task: Task)
    requires Extends(s, s') && TaskOk(o, s, task)
    requires task.Resuming? ==> Unspent(s'.log, task.warrant)
    ensures TaskOk(o, s', task)
  {
  }

  /** Tasks other than `t` stay fine; `t` is replaced by a task that is fine by itself. */
  lemma TasksMono(o: Options, s: App, s': App, t: nat)
    requires Extends(s, s') && t < |s.tasks| == |s'.tasks|
    requires s'.tasks == s.tasks[t := s'.tasks[t]] && TaskOk(o, s', s'.tasks[t])
    requires forall i :: 0 <= i < |s.tasks| ==> TaskOk(o, s, s.tasks[i])
    requires forall i :: 0 <= i < |s.tasks| && i != t && s.tasks[i].Resuming? ==> Unspent(s'.log, s.tasks[i].warrant)
    ensures forall i :: 0 <= i < |s'.tasks| ==> TaskOk(o, s', s'.tasks[i])
  {
    forall i | 0 <= i < |s'.tasks| ensures TaskOk(o, s', s'.tasks[i]) {
      if i != t { TaskMono(o, s, s', s.tasks[i]); }
    }
  }

  lemma TokensMono(s: App, s': App)
    requires Extends(s, s') && forall c :: c in s.tokens ==> TokenOk(s, c)
    ensures forall c :: c in s.tokens ==> TokenOk(s', c)
  {
    forall c | c in s.tokens ensures TokenOk(s', c) {
      var name, input :| Paused(c.sub, c.sid, Call(c.tcid, name, input)) in s.log
        && Audit(ApprovalRequested, c.sub, c.sid, name, c.tcid) in s.log;
      assert Paused(c.sub, c.sid, Call(c.tcid, name, input)) in s'.log;
    }
  }

  lemma InvCreate(o: Options, s: App, owner: JsString, id: JsString)
    requires Inv(o, s) && Enabled(s, Create(owner, id))
    ensures Inv(o, Step(o, s, Create(owner, id)))
    ensures KeyOf(owner, id) !in s.sessions
  {
    var s' := Step(o, s, Create(owner, id));
    var key := KeyOf(owner, id);
    if key in s.sessions {
      KeyOfInjective(owner, id, s.sessions[key].owner, s.sessions[key].id);
    }
    TokensMono(s, s');
    forall i | 0 <= i < |s'.tasks| ensures TaskOk(o, s', s'.tasks[i]) {
      TaskMono(o, s, s', s.tasks[i]);
    }
  }

  lemma InvSend(o: Options, s: App, owner: JsString, id: JsString, text: string)
    requires Inv(o, s)
    ensures Inv(o, StepSend(s, owner, id, text))
  {
    var s' := StepSend(s, owner, id, text);
    if s' != s {
      var session := s.sessions[KeyOf(owner, id)];
      LogSnoc(o, s.log, MessageAccepted(session.owner, session.id));
      TokensMono(s, s');
      forall i | 0 <= i < |s'.tasks| ensures TaskOk(o, s', s'.tasks[i]) {
        if i < |s.tasks| { TaskMono(o, s, s', s.tasks[i]); }
      }
    }
  }

  lemma SessionsMono(s: App, s': App, key: JsString)
    requires SessionsOk(s) && Extends(s, s') && key in s.sessions && key in s'.sessions
    requires s'.sessions == s.sessions[key := s'.sessions[key]]
    requires var session := s'.sessions[key];
      session.pending.Some? ==> Paused(session.owner, session.id, session.pending.value) in s'.log
    ensures SessionsOk(s')
  {
  }

  /** The common shape of a transition: one session, one task, some log entries. */
  lemma MoveKeepsInv(o: Options, s: App, s': App, key: JsString, t: nat)
    requires Inv(o, s) && Extends(s, s') && key in s.sessions && t < |s.tasks| == |s'.tasks|
    requires s'.sessions == s.sessions[key := s'.sessions[key]]
    requires var session := s'.sessions[key];
      session.pending.Some? ==> Paused(session.owner, session.id, session.pending.value) in s'.log
    requires s'.tasks == s.tasks[t := s'.tasks[t]] && TaskOk(o, s', s'.tasks[t])
    requires s'.tasks[t].Resuming? ==> s'.tasks[t].warrant == |s.log|
    requires LogOk(o, s'.log) && IdsOk(s')
    requires forall c :: c in s'.tokens ==> c in s.tokens || TokenOk(s', c)
    requires forall i :: 0 <= i < |s.tasks| && i != t && s.tasks[i].Resuming? ==> Unspent(s'.log, s.tasks[i].warrant)
    ensures Inv(o, s')
  {
    SessionsMono(s, s', key);
    TokensMono(s, s');
    TasksMono(o, s, s', t);
    assert WarrantsDistinct(s') by {
      forall i, j | 0 <= i < j < |s'.tasks| && s'.tasks[i].Resuming? && s'.tasks[j].Resuming?
        ensures s'.tasks[i].warrant != s'.tasks[j].warrant
      {
        assert TaskOk(o, s, s.tasks[i]) && TaskOk(o, s, s.tasks[j]);
      }
    }
  }

  /** Entries that are not warranted runs leave every open warrant unspent. */
  lemma StillUnspent(o: Options, s: App, entries: seq<LogEntry>)
    requires Inv(o, s) && forall e :: e in entries && e.Ran? ==> e.warrant.None?
    ensures forall i :: 0 <= i < |s.tasks| && s.tasks[i].Resuming? ==> Unspent(s.log + entries, s.tasks[i].warrant)
  {
    forall i | 0 <= i < |s.tasks| && s.tasks[i].Resuming?
      ensures Unspent(s.log + entries, s.tasks[i].warrant)
    {
      assert TaskOk(o, s, s.tasks[i]);
    }
  }

  lemma InvAdvance(o: Options, s: App, t: nat)
    requires Inv(o, s) && t < |s.tasks| && s.tasks[t].Looping? && s.tasks[t].key in s.sessions
    ensures Inv(o, StepAdvance(o, s, t))
  {
    var s' := StepAdvance(o, s, t);
    var Looping(key, step) := s.tasks[t];
    var session := s.sessions[key];
    if step < o.maxSteps {
      var entry := ModelCalled(session.owner, session.id);
      LogSnoc(o, s.log, entry);
      StillUnspent(o, s, [entry]);
      MoveKeepsInv(o, s, s', key, t);
    } else {
      QuietMove(o, s, s', key, t);
    }
  }

  lemma InvModelReply(o: Options, s: App, t: nat, turn: ModelTurn, callId: JsString)
    requires Inv(o, s) && t < |s.tasks| && s.tasks[t].AwaitingModel? && s.tasks[t].key in s.sessions && callId !in s.ids
    ensures Inv(o, StepModelReply(o, s, t, turn, callId))
  {
    var AwaitingModel(key, step) := s.tasks[t];
    assert TaskOk(o, s, s.tasks[t]);
    if turn.UseTool? && turn.name in o.tools && SafeParse(o.tools[turn.name], turn.input).Some? {
      var call := Call(callId, turn.name, SafeParse(o.tools[turn.name], turn.input).value);
      if o.tools[turn.name].risky {
        InvPause(o, s, t, turn, call);
      } else {
        InvSafeRun(o, s, t, turn, call);
      }
    } else {
      QuietMove(o, s, StepModelReply(o, s, t, turn, callId), key, t);
    }
  }

  /** A transition that logs nothing, sets nothing pending and warrants nothing. */
  lemma QuietMove(o: Options, s: App, s': App, key: JsString, t: nat)
    requires Inv(o, s) && key in s.sessions && key in s'.sessions && t < |s.tasks| == |s'.tasks|
    requires s'.sessions == s.sessions[key := s'.sessions[key]]
    requires s'.sessions[key] == s.sessions[key].(history := s'.sessions[key].history)
    requires s'.tasks == s.tasks[t := s'.tasks[t]] && !s'.tasks[t].Resuming? && TaskOk(o, s, s'.tasks[t])
    requires s'.log == s.log && s'.ids == s.ids && s'.tokens == s.tokens
    ensures Inv(o, s')
  {
    StillUnspent(o, s, []);
    assert s.log + [] == s.log;
    TaskMono(o, s, s', s'.tasks[t]);
    MoveKeepsInv(o, s, s', key, t);
  }

  lemma InvPause(o: Options, s: App, t: nat, turn: ModelTurn, call: Call)
    requires Inv(o, s) && t < |s.tasks| && s.tasks[t].AwaitingModel? && s.tasks[t].key in s.sessions
    requires call.id !in s.ids
    requires turn.UseTool? && turn.name == call.name && call.name in o.tools && o.tools[call.name].risky
    requires SafeParse(o.tools[call.name], turn.input) == Some(call.input)
    ensures Inv(o, StepModelReply(o, s, t, turn, call.id))
  {
    var session := s.sessions[s.tasks[t].key];
    var entry := Paused(session.owner, session.id, call);
    LogSnoc(o, s.log, entry);
    StillUnspent(o, s, [entry]);
    var s' := StepModelReply(o, s, t, turn, call.id);
    assert s'.log == s.log + [entry];
    assert entry in s'.log;
    MoveKeepsInv(o, s, s', s.tasks[t].key, t);
  }

  lemma InvSafeRun(o: Options, s: App, t: nat, turn: ModelTurn, call: Call)
    requires Inv(o, s) && t < |s.tasks| && s.tasks[t].AwaitingModel? && s.tasks[t].key in s.sessions
    requires call.id !in s.ids
    requires turn.UseTool? && turn.name == call.name && call.name in o.tools && !o.tools[call.name].risky
    requires SafeParse(o.tools[call.name], turn.input) == Some(call.input)
    ensures Inv(o, StepModelReply(o, s, t, turn, call.id))
  {
    var session := s.sessions[s.tasks[t].key];
    assert TaskOk(o, s, s.tasks[t]);
    var audit := Audit(ToolCall, session.owner, session.id, call.name, call.id);
    var ran := Ran(session.owner, session.id, call, None);
    LogSnoc(o, s.log, audit);
    LogSnoc(o, s.log + [audit], ran);
    StillUnspent(o, s, [audit, ran]);
    var s' := StepModelReply(o, s, t, turn, call.id);
    assert s'.log == s.log + [audit, ran] == s.log + [audit] + [ran];
    MoveKeepsInv(o, s, s', s.tasks[t].key, t);
  }

  lemma InvSign(o: Options, s: App, t: nat)
    requires Inv(o, s) && t < |s.tasks| && s.tasks[t].AwaitingSignature? && s.tasks[t].key in s.sessions
    ensures Inv(o, StepSign(s, t))
  {
    var s' := StepSign(s, t);
    var AwaitingSignature(key, call) := s.tasks[t];
    assert TaskOk(o, s, s.tasks[t]);
    var session := s.sessions[key];
    var entry := Audit(ApprovalRequested, session.owner, session.id, call.name, call.id);
    SignedTokenOk(o, s, session, call, s');
    StillUnspent(o, s, [entry]);
    MoveKeepsInv(o, s, s', key, t);
  }

  lemma SignedTokenOk(o: Options, s: App, session: Session, call: Call, s': App)
    requires LogOk(o, s.log) && Paused(session.owner, session.id, call) in s.log
    requires s'.log == s.log + [Audit(ApprovalRequested, session.owner, session.id, call.name, call.id)]
    ensures LogOk(o, s'.log) && TokenOk(s', Claims(session.owner, session.id, call.id))
  {
    var entry := Audit(ApprovalRequested, session.owner, session.id, call.name, call.id);
    var paused := Paused(session.owner, session.id, Call(call.id, call.name, call.input));
    assert paused == Paused(session.owner, session.id, call);
    LogSnoc(o, s.log, entry);
    assert paused in s'.log && entry in s'.log;
  }

  lemma InvToolReply(o: Options, s: App, t: nat, output: Option<string>)
    requires Inv(o, s) && t < |s.tasks| && s.tasks[t].AwaitingTool? && s.tasks[t].key in s.sessions
    ensures Inv(o, StepToolReply(s, t, output))
  {
    var s' := StepToolReply(s, t, output);
    var AwaitingTool(key, call, next) := s.tasks[t];
    assert TaskOk(o, s, s.tasks[t]);
    var session := s.sessions[key];
    if output.Some? {
      QuietMove(o, s, s', key, t);
    } else {
      var entry := Audit(ToolError, session.owner, session.id, call.name, call.id);
      LogSnoc(o, s.log, entry);
      StillUnspent(o, s, [entry]);
      MoveKeepsInv(o, s, s', key, t);
    }
  }

  lemma InvBegin(o: Options, s: App, owner: JsString, id: JsString, approve: bool)
    requires Inv(o, s)
    ensures Inv(o, StepBegin(s, owner, id, approve))
  {
    var s' := StepBegin(s, owner, id, approve);
    if s' != s {
      TokensMono(s, s');
      forall i | 0 <= i < |s'.tasks| ensures TaskOk(o, s', s'.tasks[i]) {
        if i < |s.tasks| { TaskMono(o, s, s', s.tasks[i]); }
      }
    }
  }

  /** A call id is paused once, so it determines owner, session, tool and input. */
  lemma PausedOnce(o: Options, log: seq<LogEntry>, e: LogEntry, e': LogEntry)
    requires LogOk(o, log) && e in log && e' in log && e.Paused? && e'.Paused? && e.call.id == e'.call.id
    ensures e == e'
  {
    var i :| 0 <= i < |log| && log[i] == e;
    var j :| 0 <= j < |log| && log[j] == e';
    assert EntryOk(o, log[..i], log[i]) && EntryOk(o, log[..j], log[j]);
    if i < j {
      assert log[..j][i] == e;
    } else if j < i {
      assert log[..i][j] == e';
    }
  }

  lemma InvFinish(o: Options, s: App, t: nat, verified: Option<Claims>)
    requires Inv(o, s) && t < |s.tasks| && s.tasks[t].Verifying? && s.tasks[t].key in s.sessions
    requires verified.Some? ==> verified.value in s.tokens
    ensures Inv(o, StepFinish(s, t, verified))
  {
    var Verifying(key, call, approve) := s.tasks[t];
    assert TaskOk(o, s, s.tasks[t]);
    if verified.Some? && Matches(verified.value, s.sessions[key], call) {
      InvAccept(o, s, t, verified.value);
    } else {
      QuietMove(o, s, StepFinish(s, t, verified), key, t);
    }
  }

  lemma InvAccept(o: Options, s: App, t: nat, claims: Claims)
    requires Inv(o, s) && t < |s.tasks| && s.tasks[t].Verifying? && s.tasks[t].key in s.sessions && claims in s.tokens
    requires Matches(claims, s.sessions[s.tasks[t].key], s.tasks[t].call)
    ensures Inv(o, StepFinish(s, t, Some(claims)))
  {
    var s' := StepFinish(s, t, Some(claims));
    var Verifying(key, call, approve) := s.tasks[t];
    assert TaskOk(o, s, s.tasks[t]);
    var session := s.sessions[key];
    AcceptedWasRequested(o, s, session, call, claims);
    var entry := Audit(DecisionKind(approve), session.owner, session.id, call.name, call.id);
    LogSnoc(o, s.log, entry);
    StillUnspent(o, s, [entry]);
    NoFutureWarrant(o, s.log);
    IdOfPaused(o, s, Paused(session.owner, session.id, call));
    assert s'.log[|s.log|] == entry;
    assert TaskOk(o, s', s'.tasks[t]);
    MoveKeepsInv(o, s, s', key, t);
  }

  lemma IdOfPaused(o: Options, s: App, e: LogEntry)
    requires Inv(o, s) && e in s.log && e.Paused?
    ensures e.call.id in s.ids
  {
  }

  /** An accepted token was issued for exactly the call the handler holds. */
  lemma AcceptedWasRequested(o: Options, s: App, session: Session, call: Call, c: Claims)
    requires Inv(o, s) && c in s.tokens && Matches(c, session, call)
    requires Paused(session.owner, session.id, call) in s.log
    ensures Audit(ApprovalRequested, session.owner, session.id, call.name, call.id) in s.log
  {
    assert TokenOk(s, c);
    var name, input :| Paused(c.sub, c.sid, Call(c.tcid, name, input)) in s.log
      && Audit(ApprovalRequested, c.sub, c.sid, name, c.tcid) in s.log;
    PausedOnce(o, s.log, Paused(c.sub, c.sid, Call(c.tcid, name, input)),
               Paused(session.owner, session.id, call));
  }

  /** A warrant points back, so the next log position is unspent. */
  lemma NoFutureWarrant(o: Options, log: seq<LogEntry>)
    requires LogOk(o, log)
    ensures Unspent(log, |log|)
  {
    forall e | e in log && e.Ran? ensures e.warrant != Some(|log|) {
      var i :| 0 <= i < |log| && log[i] == e;
      assert EntryOk(o, log[..i], log[i]);
    }
  }

  lemma InvResume(o: Options, s: App, t: nat)
    requires Inv(o, s) && t < |s.tasks| && s.tasks[t].Resuming? && s.tasks[t].key in s.sessions
    ensures Inv(o, StepResume(s, t))
  {
    var s' := StepResume(s, t);
    var Resuming(key, call, approve, g) := s.tasks[t];
    assert TaskOk(o, s, s.tasks[t]);
    if approve {
      InvApprovedRun(o, s, t);
    } else {
      QuietMove(o, s, s', key, t);
    }
  }

  lemma InvApprovedRun(o: Options, s: App, t: nat)
    requires Inv(o, s) && t < |s.tasks| && s.tasks[t].Resuming? && s.tasks[t].key in s.sessions && s.tasks[t].approve
    ensures Inv(o, StepResume(s, t))
  {
    var s' := StepResume(s, t);
    var Resuming(key, call, approve, g) := s.tasks[t];
    assert TaskOk(o, s, s.tasks[t]);
    var session := s.sessions[key];
    var audit := Audit(ToolCall, session.owner, session.id, call.name, call.id);
    var ran := Ran(session.owner, session.id, call, Some(g));
    ApprovedRunLog(o, s.log, session, call, g);
    assert s'.log == s.log + [audit, ran];
    IdOfPaused(o, s, Paused(session.owner, session.id, call));
    OthersUnspent(o, s, t, audit, ran);
    MoveKeepsInv(o, s, s', key, t);
  }

  lemma ApprovedRunLog(o: Options, log: seq<LogEntry>, session: Session, call: Call, g: nat)
    requires LogOk(o, log) && Paused(session.owner, session.id, call) in log
    requires g < |log| && log[g] == Audit(ApprovalGranted, session.owner, session.id, call.name, call.id)
    requires Unspent(log, g)
    ensures LogOk(o, log + [Audit(ToolCall, session.owner, session.id, call.name, call.id),
                            Ran(session.owner, session.id, call, Some(g))])
  {
    var audit := Audit(ToolCall, session.owner, session.id, call.name, call.id);
    var ran := Ran(session.owner, session.id, call, Some(g));
    hide LogOk;
    LogSnoc(o, log, audit);
    PausedIsRisky(o, log, Paused(session.owner, session.id, call));
    LogSnoc(o, log + [audit], ran);
    assert log + [audit, ran] == log + [audit] + [ran];
  }

  lemma OthersUnspent(o: Options, s: App, t: nat, audit: LogEntry, ran: LogEntry)
    requires Inv(o, s) && t < |s.tasks| && s.tasks[t].Resuming? && audit.Audit?
    requires ran.Ran? && ran.warrant == Some(s.tasks[t].warrant)
    ensures forall i :: 0 <= i < |s.tasks| && i != t && s.tasks[i].Resuming? ==>
      Unspent(s.log + [audit, ran], s.tasks[i].warrant)
  {
    forall i | 0 <= i < |s.tasks| && i != t && s.tasks[i].Resuming?
      ensures Unspent(s.log + [audit, ran], s.tasks[i].warrant)
    {
      assert TaskOk(o, s, s.tasks[i]);
      assert s.tasks[i].warrant != s.tasks[t].warrant;
    }
  }

  lemma PausedIsRisky(o: Options, log: seq<LogEntry>, e: LogEntry)
    requires LogOk(o, log) && e in log && e.Paused?
    ensures e.call.name in o.tools && o.tools[e.call.name].risky
  {
    var i :| 0 <= i < |log| && log[i] == e;
    assert EntryOk(o, log[..i], log[i]);
  }

  lemma InvDrop(o: Options, s: App, t: nat)
    requires Inv(o, s) && Enabled(s, Drop(t))
    ensures Inv(o, StepDrop(s, t))
  {
    assert TaskOk(o, s, s.tasks[t]);
    QuietMove(o, s, StepDrop(s, t), s.tasks[t].key, t);
  }

  lemma StepKeepsInv(o: Options, s: App, e: Event)
    requires Inv(o, s) && Enabled(s, e)
    ensures Inv(o, Step(o, s, e))
  {
    match e
    case Create(owner, id) => InvCreate(o, s, owner, id);
    case Send(owner, id, text) => InvSend(o, s, owner, id, text);
    case Advance(t) => InvAdvance(o, s, t);
    case ModelReply(t, turn, callId) => InvModelReply(o, s, t, turn, callId);
    case Sign(t) => InvSign(o, s, t);
    case ToolReply(t, output) => InvToolReply(o, s, t, output);
    case BeginDecision(owner, id, approve) => InvBegin(o, s, owner, id, approve);
    case FinishDecision(t, verified) => InvFinish(o, s, t, verified);
    case Resume(t) => InvResume(o, s, t);
    case Drop(t) => InvDrop(o, s, t);
  }

  lemma {:induction false} RunKeepsInv(o: Options, s: App, es: seq<Event>)
    requires Inv(o, s) && IsRun(o, s, es)
    ensures Inv(o, RunFrom(o, s, es))
    decreases |es|
  {
    if es != [] {
      StepKeepsInv(o, s, es[0]);
      RunKeepsInv(o, Step(o, s, es[0]), es[1..]);
    }
  }
}
