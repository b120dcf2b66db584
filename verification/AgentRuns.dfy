/** The approval guarantees of examples/agent-loop.ts, as theorems about whole runs. */
module AgentRuns {
  import opened Common
  import opened SessionKey
  import opened AgentProtocol
  import opened AgentSafety

  lemma ReachableInv(o: Options, es: seq<Event>)
    requires IsRun(o, INIT, es)
    ensures Inv(o, RunFrom(o, INIT, es))
  {
    RunKeepsInv(o, INIT, es);
  }

  // ----- nothing risky runs without an approval of exactly that call -----

  /**
   * Any interleaving: a run of a risky tool comes after its pause, its approval request and
   * its grant, in that order, all for the same owner, session, tool and call id, and with the
   * very input that was recorded at the pause. Each grant pays for at most one run.
   */
  lemma RiskyRunsAreApproved(o: Options, es: seq<Event>, i: nat) returns (p: nat, r: nat, g: nat)
    requires IsRun(o, INIT, es)
    requires var log := RunFrom(o, INIT, es).log;
      i < |log| && log[i].Ran? && log[i].call.name in o.tools && o.tools[log[i].call.name].risky
    ensures ApprovedBy(RunFrom(o, INIT, es).log, i, p, r, g)
    ensures var log := RunFrom(o, INIT, es).log;
      forall j :: 0 <= j < |log| && j != i && log[j].Ran? ==> log[j].warrant != Some(g)
  {
    ReachableInv(o, es);
    var log := RunFrom(o, INIT, es).log;
    p, r, g := Provenance(o, log, i);
    forall j | 0 <= j < |log| && j != i && log[j].Ran?
      ensures log[j].warrant != Some(g)
    {
      assert EntryOk(o, log[..i], log[i]) && EntryOk(o, log[..j], log[j]);
      if j < i { assert log[..i][j] == log[j]; } else { assert log[..j][i] == log[i]; }
    }
  }

  /** Positions of the pause, the request and the grant that precede the run at `i`. */
  ghost predicate ApprovedBy(log: seq<LogEntry>, i: nat, p: nat, r: nat, g: nat) {
    && p < r < g < i < |log| && log[i].Ran?
    && var Ran(owner, sid, call, warrant) := log[i];
    && log[p] == Paused(owner, sid, call)
    && log[r] == Audit(ApprovalRequested, owner, sid, call.name, call.id)
    && log[g] == Audit(ApprovalGranted, owner, sid, call.name, call.id)
    && warrant == Some(g)
  }

  lemma Provenance(o: Options, log: seq<LogEntry>, i: nat) returns (p: nat, r: nat, g: nat)
    requires LogOk(o, log)
    requires i < |log| && log[i].Ran? && log[i].call.name in o.tools && o.tools[log[i].call.name].risky
    ensures ApprovedBy(log, i, p, r, g)
  {
    var Ran(owner, sid, call, warrant) := log[i];
    assert EntryOk(o, log[..i], log[i]);
    g := warrant.value;
    assert EntryOk(o, log[..g], log[g]);
    r :| 0 <= r < g && log[r] == Audit(ApprovalRequested, owner, sid, call.name, call.id);
    assert EntryOk(o, log[..r], log[r]);
    var input :| Paused(owner, sid, Call(call.id, call.name, input)) in log[..r];
    PausedOnce(o, log, Paused(owner, sid, Call(call.id, call.name, input)), Paused(owner, sid, call));
    p :| 0 <= p < r && log[p] == Paused(owner, sid, call);
  }

  // ----- a used or superseded token stays dead -----

  /** A decision request that starts now could be matched by this token. */
  predicate Redeemable(s: App, c: Claims) {
    var key := KeyOf(c.sub, c.sid);
    key in s.sessions && s.sessions[key].pending.Some? && s.sessions[key].pending.value.id == c.tcid
  }

  /** A transition keeps what a session has pending, clears it, or pauses a call with a fresh id. */
  ghost predicate PendingMoves(s: App, s': App) {
    forall k :: k in s'.sessions && s'.sessions[k].pending.Some? ==>
      s'.sessions[k].pending.value.id !in s.ids
      || (k in s.sessions && s.sessions[k].pending == s'.sessions[k].pending)
  }

  lemma StepMovesPending(o: Options, s: App, e: Event)
    requires Enabled(s, e)
    ensures PendingMoves(s, Step(o, s, e)) && s.tokens <= Step(o, s, e).tokens
  {
  }

  lemma DeadAfter(o: Options, s: App, s': App, c: Claims)
    requires Inv(o, s) && PendingMoves(s, s') && c in s.tokens && !Redeemable(s, c)
    ensures !Redeemable(s', c)
  {
    assert TokenOk(s, c);
    var name, input :| Paused(c.sub, c.sid, Call(c.tcid, name, input)) in s.log;
    IdOfPaused(o, s, Paused(c.sub, c.sid, Call(c.tcid, name, input)));
  }

  /**
   * Any interleaving: once an issued token's call is no longer the pending one, because it was
   * decided or because another call replaced it, no decision request that starts later matches it.
   */
  lemma {:induction false} DeadTokensStayDead(o: Options, s: App, es: seq<Event>, c: Claims)
    requires Inv(o, s) && IsRun(o, s, es) && c in s.tokens && !Redeemable(s, c)
    ensures !Redeemable(RunFrom(o, s, es), c)
    decreases |es|
  {
    if es != [] {
      StepMovesPending(o, s, es[0]);
      DeadAfter(o, s, Step(o, s, es[0]), c);
      StepKeepsInv(o, s, es[0]);
      DeadTokensStayDead(o, Step(o, s, es[0]), es[1..], c);
    }
  }

  // ----- single use -----

  ghost predicate Undecided(log: seq<LogEntry>, callId: JsString) {
    forall e :: e in log && IsDecision(e) ==> e.callId != callId
  }

  ghost predicate PendingUndecided(s: App) {
    forall k :: k in s.sessions && s.sessions[k].pending.Some? ==>
      Undecided(s.log, s.sessions[k].pending.value.id)
  }

  /** What an accepted decision does: one decision entry, and nothing pending in its session. */
  ghost predicate AcceptMove(s: App, s': App, t: nat) {
    && t < |s.tasks| && s.tasks[t].Verifying? && s.tasks[t].key in s.sessions
    && var Verifying(key, call, approve) := s.tasks[t];
       var session := s.sessions[key];
    && s'.log == s.log + [Audit(DecisionKind(approve), session.owner, session.id, call.name, call.id)]
    && s'.sessions == s.sessions[key := session.(pending := None)]
    && s'.tasks == s.tasks[t := Resuming(key, call, approve, |s.log|)]
  }

  /** A transition that is not an accepted decision logs none and starts at most one handler. */
  ghost predicate OtherMove(s: App, s': App) {
    && s.log <= s'.log
    && (forall i :: |s.log| <= i < |s'.log| ==> !IsDecision(s'.log[i]))
    && |s.tasks| <= |s'.tasks| <= |s.tasks| + 1
    && (forall t :: 0 <= t < |s.tasks| && s'.tasks[t].Verifying? ==> s'.tasks[t] == s.tasks[t])
  }

  lemma StepShape(o: Options, s: App, e: Event)
    requires Enabled(s, e)
    ensures OtherMove(s, Step(o, s, e)) || (e.FinishDecision? && AcceptMove(s, Step(o, s, e), e.task))
  {
  }

  lemma UndecidedGrows(s: App, s': App, callId: JsString)
    requires OtherMove(s, s') && Undecided(s.log, callId)
    ensures Undecided(s'.log, callId)
  {
  }

  lemma FreshIsUndecided(o: Options, s: App, callId: JsString)
    requires Inv(o, s) && callId !in s.ids
    ensures Undecided(s.log, callId)
  {
  }

  lemma PendingAfterOther(o: Options, s: App, s': App)
    requires Inv(o, s) && PendingUndecided(s) && PendingMoves(s, s') && OtherMove(s, s')
    ensures PendingUndecided(s')
  {
    forall k | k in s'.sessions && s'.sessions[k].pending.Some?
      ensures Undecided(s'.log, s'.sessions[k].pending.value.id)
    {
      var callId := s'.sessions[k].pending.value.id;
      if callId !in s.ids { FreshIsUndecided(o, s, callId); }
      UndecidedGrows(s, s', callId);
    }
  }

  /** A decision on a call clears it, and a call pends only once, so what pends is undecided. */
  lemma PendingAfterAccept(o: Options, s: App, s': App, t: nat)
    requires Inv(o, s) && PendingUndecided(s) && AcceptMove(s, s', t)
    ensures PendingUndecided(s')
  {
    forall k | k in s'.sessions && s'.sessions[k].pending.Some?
      ensures Undecided(s'.log, s'.sessions[k].pending.value.id)
    {
      var callId := s.sessions[k].pending.value.id;
      if callId == s.tasks[t].call.id { DecidedElsewhere(o, s, t, k); }
      StaysUndecided(s.log, s'.log[|s.log|], callId);
    }
  }

  lemma StaysUndecided(log: seq<LogEntry>, e: LogEntry, callId: JsString)
    requires Undecided(log, callId) && (IsDecision(e) ==> e.callId != callId)
    ensures Undecided(log + [e], callId)
  {
  }

  /** A call held by a handler of one session is not the pending call of another session. */
  lemma DecidedElsewhere(o: Options, s: App, t: nat, k: JsString)
    requires Inv(o, s) && t < |s.tasks| && s.tasks[t].Verifying?
    requires k in s.sessions && s.sessions[k].pending.Some? && s.sessions[k].pending.value.id == s.tasks[t].call.id
    ensures k == s.tasks[t].key
  {
    assert TaskOk(o, s, s.tasks[t]);
    var mine, theirs := s.sessions[s.tasks[t].key], s.sessions[k];
    PausedOnce(o, s.log, Paused(mine.owner, mine.id, s.tasks[t].call),
               Paused(theirs.owner, theirs.id, theirs.pending.value));
  }

  /**
   * A decision request begins while no other decision handler still holds the call it reads.
   * A caller can check this before sending the request.
   */
  ghost predicate SerialBegin(s: App, e: Event) {
    e.BeginDecision? && DecisionStatus(s, e.owner, e.id) == Success200 ==>
      forall t :: 0 <= t < |s.tasks| && s.tasks[t].Verifying? ==>
        s.tasks[t].call.id != s.sessions[KeyOf(e.owner, e.id)].pending.value.id
  }

  ghost predicate IsSerialRun(o: Options, s: App, es: seq<Event>)
    decreases |es|
  {
    es == [] || (Enabled(s, es[0]) && SerialBegin(s, es[0]) && IsSerialRun(o, Step(o, s, es[0]), es[1..]))
  }

  ghost predicate DecidedOnce(log: seq<LogEntry>) {
    forall i, j :: 0 <= i < j < |log| && IsDecision(log[i]) && IsDecision(log[j]) ==>
      log[i].callId != log[j].callId
  }

  ghost predicate SerialInv(s: App) {
    && PendingUndecided(s)
    && DecidedOnce(s.log)
    && (forall t :: 0 <= t < |s.tasks| && s.tasks[t].Verifying? ==> Undecided(s.log, s.tasks[t].call.id))
    && (forall t, u :: 0 <= t < u < |s.tasks| && s.tasks[t].Verifying? && s.tasks[u].Verifying? ==>
          s.tasks[t].call.id != s.tasks[u].call.id)
  }

  lemma BeginShape(o: Options, s: App, e: Event)
    requires Enabled(s, e) && SerialBegin(s, e)
    ensures var s' := Step(o, s, e);
      |s'.tasks| == |s.tasks| + 1 && s'.tasks[|s.tasks|].Verifying? ==>
        (exists k :: k in s.sessions && s.sessions[k].pending == Some(s'.tasks[|s.tasks|].call))
        && (forall t :: 0 <= t < |s.tasks| && s.tasks[t].Verifying? ==>
              s.tasks[t].call.id != s'.tasks[|s.tasks|].call.id)
  {
    if e.BeginDecision? && DecisionStatus(s, e.owner, e.id) == Success200 {
      var k := KeyOf(e.owner, e.id);
      assert s.sessions[k].pending == Some(Step(o, s, e).tasks[|s.tasks|].call);
    }
  }

  lemma SerialAfterOther(s: App, s': App)
    requires SerialInv(s) && PendingUndecided(s') && OtherMove(s, s')
    requires |s'.tasks| == |s.tasks| + 1 && s'.tasks[|s.tasks|].Verifying? ==>
      (exists k :: k in s.sessions && s.sessions[k].pending == Some(s'.tasks[|s.tasks|].call))
      && (forall t :: 0 <= t < |s.tasks| && s.tasks[t].Verifying? ==>
            s.tasks[t].call.id != s'.tasks[|s.tasks|].call.id)
    ensures SerialInv(s')
  {
    forall t | 0 <= t < |s'.tasks| && s'.tasks[t].Verifying?
      ensures Undecided(s'.log, s'.tasks[t].call.id)
    {
      if t == |s.tasks| {
        var k :| k in s.sessions && s.sessions[k].pending == Some(s'.tasks[t].call);
      }
      UndecidedGrows(s, s', s'.tasks[t].call.id);
    }
  }

  lemma SerialAfterAccept(s: App, s': App, t: nat)
    requires SerialInv(s) && PendingUndecided(s') && AcceptMove(s, s', t)
    ensures SerialInv(s')
  {
    assert Undecided(s.log, s.tasks[t].call.id);
    forall i, j | 0 <= i < j < |s'.log| && IsDecision(s'.log[i]) && IsDecision(s'.log[j])
      ensures s'.log[i].callId != s'.log[j].callId
    {
      assert s'.log[i] in s.log;
    }
  }

  lemma StepKeepsSerialInv(o: Options, s: App, e: Event)
    requires Inv(o, s) && Enabled(s, e) && SerialBegin(s, e) && SerialInv(s)
    ensures SerialInv(Step(o, s, e))
  {
    var s' := Step(o, s, e);
    StepMovesPending(o, s, e);
    StepShape(o, s, e);
    if OtherMove(s, s') {
      PendingAfterOther(o, s, s');
      BeginShape(o, s, e);
      SerialAfterOther(s, s');
    } else {
      PendingAfterAccept(o, s, s', e.task);
      SerialAfterAccept(s, s', e.task);
    }
  }

  lemma {:induction false} SerialRunKeepsInv(o: Options, s: App, es: seq<Event>)
    requires Inv(o, s) && SerialInv(s) && IsSerialRun(o, s, es)
    ensures IsRun(o, s, es) && Inv(o, RunFrom(o, s, es)) && SerialInv(RunFrom(o, s, es))
    decreases |es|
  {
    if es != [] {
      StepKeepsSerialInv(o, s, es[0]);
      StepKeepsInv(o, s, es[0]);
      SerialRunKeepsInv(o, Step(o, s, es[0]), es[1..]);
    }
  }

  ghost predicate RunOnce(log: seq<LogEntry>) {
    forall i, j :: 0 <= i < j < |log| && ApprovedRun(log[i]) && ApprovedRun(log[j]) ==>
      log[i].call.id != log[j].call.id
  }

  ghost predicate DeniedNeverRuns(log: seq<LogEntry>) {
    forall i, j :: 0 <= i < |log| && 0 <= j < |log| && ApprovedRun(log[i]) && IsDenial(log[j]) ==>
      log[i].call.id != log[j].callId
  }

  predicate ApprovedRun(e: LogEntry) { e.Ran? && e.warrant.Some? }

  predicate IsDenial(e: LogEntry) { e.Audit? && e.kind == ApprovalDenied }

  lemma DecidedOnceMeansRunOnce(o: Options, log: seq<LogEntry>)
    requires LogOk(o, log) && DecidedOnce(log)
    ensures RunOnce(log) && DeniedNeverRuns(log)
  {
    forall i, j | 0 <= i < j < |log| && ApprovedRun(log[i]) && ApprovedRun(log[j])
      ensures log[i].call.id != log[j].call.id
    {
      RunsDiffer(o, log, i, j);
    }
    forall i, j | 0 <= i < |log| && 0 <= j < |log| && ApprovedRun(log[i]) && IsDenial(log[j])
      ensures log[i].call.id != log[j].callId
    {
      DenialStops(o, log, i, j);
    }
  }

  lemma DenialStops(o: Options, log: seq<LogEntry>, i: nat, j: nat)
    requires LogOk(o, log) && DecidedOnce(log)
    requires i < |log| && j < |log| && ApprovedRun(log[i]) && IsDenial(log[j])
    ensures log[i].call.id != log[j].callId
  {
    assert EntryOk(o, log[..i], log[i]);
    assert IsDecision(log[log[i].warrant.value]) && IsDecision(log[j]);
  }

  lemma RunsDiffer(o: Options, log: seq<LogEntry>, i: nat, j: nat)
    requires LogOk(o, log) && DecidedOnce(log)
    requires i < j < |log| && ApprovedRun(log[i]) && ApprovedRun(log[j])
    ensures log[i].call.id != log[j].call.id
  {
    assert EntryOk(o, log[..i], log[i]) && EntryOk(o, log[..j], log[j]);
    assert log[..j][i] == log[i];
    var g, h := log[i].warrant.value, log[j].warrant.value;
    assert g != h && IsDecision(log[g]) && IsDecision(log[h]);
  }

  /**
   * When decision handlers do not overlap on a call, every call is decided at most once, a
   * risky call runs at most once, and a denied call never runs. Loops may still interleave.
   */
  lemma SerialDecisionsAreSingleUse(o: Options, es: seq<Event>)
    requires IsSerialRun(o, INIT, es)
    ensures IsRun(o, INIT, es)
    ensures var log := RunFrom(o, INIT, es).log;
      DecidedOnce(log) && RunOnce(log) && DeniedNeverRuns(log)
  {
    SerialRunKeepsInv(o, INIT, es);
    DecidedOnceMeansRunOnce(o, RunFrom(o, INIT, es).log);
  }

  /**
   * The other half. Two handlers that hold the same call, whose token is issued, both accept
   * it: each check compares the token with the call the handler read before its `await`.
   */
  lemma OverlappingHandlersBothAccept(o: Options, s: App, t: nat, u: nat)
    requires Inv(o, s) && t < |s.tasks| && u < |s.tasks| && t != u
    requires s.tasks[t].Verifying? && s.tasks[u].Verifying? && s.tasks[t].call == s.tasks[u].call
    requires var session := s.sessions[s.tasks[t].key];
      Claims(session.owner, session.id, s.tasks[t].call.id) in s.tokens
    ensures var session := s.sessions[s.tasks[t].key];
      var c := Some(Claims(session.owner, session.id, s.tasks[t].call.id));
      var es := [FinishDecision(t, c), FinishDecision(u, c)];
      IsRun(o, s, es) && !DecidedOnce(RunFrom(o, s, es).log)
  {
    assert TaskOk(o, s, s.tasks[t]) && TaskOk(o, s, s.tasks[u]);
    var a, b := s.sessions[s.tasks[t].key], s.sessions[s.tasks[u].key];
    PausedOnce(o, s.log, Paused(a.owner, a.id, s.tasks[t].call), Paused(b.owner, b.id, s.tasks[u].call));
    var c := Some(Claims(a.owner, a.id, s.tasks[t].call.id));
    var es := [FinishDecision(t, c), FinishDecision(u, c)];
    var s1 := Step(o, s, es[0]);
    assert s1.tasks[u] == s.tasks[u];
    var s2 := Step(o, s1, es[1]);
    assert es[1..] == [es[1]] && es[1..][1..] == [];
    assert RunFrom(o, s1, es[1..]) == s2;
    assert IsDecision(s2.log[|s.log|]) && IsDecision(s2.log[|s.log| + 1]);
  }

  /**
   * A decision whose verifier answers before anything else happens is accepted exactly when
   * the token names this owner and this session and its call is the one pending, and then
   * the token is dead.
   */
  lemma UndisturbedDecision(o: Options, s: App, owner: JsString, id: JsString, approve: bool, c: Claims)
    requires Inv(o, s) && c in s.tokens
    ensures var begin, finish := BeginDecision(owner, id, approve), FinishDecision(|s.tasks|, Some(c));
      var s1 := Step(o, s, begin);
      DecisionStatus(s, owner, id) == Success200 ==>
        Enabled(s1, finish)
        && var s2 := Step(o, s1, finish);
           ((s2.log != s.log) <==> (c.sub == owner && c.sid == id && Redeemable(s, c)))
           && (s2.log != s.log ==> !Redeemable(s2, c))
  {
    var key := KeyOf(owner, id);
    if key in s.sessions {
      var session := s.sessions[key];
      KeyOfInjective(owner, id, session.owner, session.id);
      if session.pending.Some? {
        assert StepBegin(s, owner, id, approve).tasks[|s.tasks|] == Verifying(key, session.pending.value, approve);
      }
    }
  }

  /** A run that leaves one issued token waiting, with the call it is for. */
  lemma OneTokenWaiting(o: Options, owner: JsString, sid: JsString, call: Call) returns (es: seq<Event>)
    requires call.name in o.tools && o.tools[call.name].risky
    requires SafeParse(o.tools[call.name], call.input) == Some(call.input)
    requires o.maxSteps > 0 && sid != call.id
    ensures IsRun(o, INIT, es)
    ensures var s := RunFrom(o, INIT, es);
      s.sessions.Keys == {KeyOf(owner, sid)}
      && s.sessions[KeyOf(owner, sid)].owner == owner && s.sessions[KeyOf(owner, sid)].id == sid
      && s.sessions[KeyOf(owner, sid)].pending == Some(call)
      && s.tokens == {Claims(owner, sid, call.id)} && s.tasks == [Done]
  {
    es := [];
    es := Then(o, INIT, es, Create(owner, sid));
    es := Then(o, INIT, es, Send(owner, sid, "please"));
    es := Then(o, INIT, es, Advance(0));
    es := Then(o, INIT, es, ModelReply(0, UseTool(call.name, call.input), call.id));
    es := Then(o, INIT, es, Sign(0));
  }

  lemma Then(o: Options, s: App, es: seq<Event>, e: Event) returns (es': seq<Event>)
    requires IsRun(o, s, es) && Enabled(RunFrom(o, s, es), e)
    ensures IsRun(o, s, es') && RunFrom(o, s, es') == Step(o, RunFrom(o, s, es), e)
  {
    es' := es + [e];
    RunAppend(o, s, es, [e]);
  }

  /** Two decision requests for one waiting call, both before their `await`. */
  lemma TwoHandlersHoldOneCall(o: Options, owner: JsString, sid: JsString, call: Call) returns (es: seq<Event>)
    requires call.name in o.tools && o.tools[call.name].risky
    requires SafeParse(o.tools[call.name], call.input) == Some(call.input)
    requires o.maxSteps > 0 && sid != call.id
    ensures IsRun(o, INIT, es)
    ensures var s, key := RunFrom(o, INIT, es), KeyOf(owner, sid);
      s.tasks == [Done, Verifying(key, call, true), Verifying(key, call, true)]
      && s.tokens == {Claims(owner, sid, call.id)}
      && key in s.sessions && s.sessions[key].owner == owner && s.sessions[key].id == sid
  {
    es := OneTokenWaiting(o, owner, sid, call);
    es := Then(o, INIT, es, BeginDecision(owner, sid, true));
    es := Then(o, INIT, es, BeginDecision(owner, sid, true));
  }

  /** From there both are accepted. */
  lemma BothAccepted(o: Options, s: App, key: JsString, call: Call) returns (es: seq<Event>)
    requires s.tasks == [Done, Verifying(key, call, true), Verifying(key, call, true)] && key in s.sessions
    requires Claims(s.sessions[key].owner, s.sessions[key].id, call.id) in s.tokens
    ensures IsRun(o, s, es)
    ensures var s' := RunFrom(o, s, es);
      key in s'.sessions && |s'.tasks| == 3
      && forall t :: 1 <= t <= 2 ==> s'.tasks[t].Resuming? && s'.tasks[t].key == key && s'.tasks[t].approve
                                     && s'.tasks[t].call == call
  {
    var token := Some(Claims(s.sessions[key].owner, s.sessions[key].id, call.id));
    es := Then(o, s, [], FinishDecision(1, token));
    es := Then(o, s, es, FinishDecision(2, token));
  }

  /** And both resume: the call runs twice. */
  lemma BothRun(o: Options, s: App, key: JsString, call: Call) returns (es: seq<Event>)
    requires key in s.sessions && |s.tasks| == 3
    requires forall t :: 1 <= t <= 2 ==> s.tasks[t].Resuming? && s.tasks[t].key == key && s.tasks[t].approve
                                         && s.tasks[t].call == call
    ensures IsRun(o, s, es) && !RunOnce(RunFrom(o, s, es).log)
  {
    es := Then(o, s, [], Event.Resume(1));
    es := Then(o, s, es, Event.Resume(2));
    var log := RunFrom(o, s, es).log;
    assert ApprovedRun(log[|s.log| + 1]) && ApprovedRun(log[|s.log| + 3]);
  }

  lemma {:induction false} RunAppend(o: Options, s: App, es: seq<Event>, fs: seq<Event>)
    requires IsRun(o, s, es) && IsRun(o, RunFrom(o, s, es), fs)
    ensures IsRun(o, s, es + fs) && RunFrom(o, s, es + fs) == RunFrom(o, RunFrom(o, s, es), fs)
    decreases |es|
  {
    if es == [] {
      assert es + fs == fs;
    } else {
      assert (es + fs)[1..] == es[1..] + fs;
      RunAppend(o, Step(o, s, es[0]), es[1..], fs);
    }
  }

  /** Overlapping decision requests can be reached, and the approved call then runs twice. */
  lemma OverlapIsReachable()
    ensures exists o: Options, es: seq<Event> :: IsRun(o, INIT, es) && !RunOnce(RunFrom(o, INIT, es).log)
  {
    var o := Options(map["refund" := Tool(true, (input: Json) => Some(input))], 8);
    var call := Call([3], "refund", "A-1");
    var es := TwoHandlersHoldOneCall(o, [1], [2], call);
    var accepted := BothAccepted(o, RunFrom(o, INIT, es), KeyOf([1], [2]), call);
    RunAppend(o, INIT, es, accepted);
    var runs := BothRun(o, RunFrom(o, INIT, es + accepted), KeyOf([1], [2]), call);
    RunAppend(o, INIT, es + accepted, runs);
  }
}
