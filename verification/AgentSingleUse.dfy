/**
 * Single use of approvals in examples/agent-loop.ts, exactly: from which states every run whose
 * new decision requests do not overlap decides every call at most once, and runs it at most once.
 */
module AgentSingleUse {
  import opened Common
  import opened SessionKey
  import opened AgentProtocol
  import opened AgentSafety
  import opened AgentRuns
  import opened AgentDecisions

  // ----- what is pending has never been decided, in any run -----

  lemma StepKeepsPendingUndecided(o: Options, s: App, e: Event)
    requires Inv(o, s) && PendingUndecided(s) && Enabled(s, e)
    ensures PendingUndecided(Step(o, s, e))
  {
    var s' := Step(o, s, e);
    StepMovesPending(o, s, e);
    StepShape(o, s, e);
    if OtherMove(s, s') { PendingAfterOther(o, s, s'); } else { PendingAfterAccept(o, s, s', e.task); }
  }

  lemma {:induction false} PendingIsUndecided(o: Options, s: App, es: seq<Event>)
    requires Inv(o, s) && PendingUndecided(s) && IsRun(o, s, es)
    ensures PendingUndecided(RunFrom(o, s, es))
    decreases |es|
  {
    if es != [] {
      StepKeepsPendingUndecided(o, s, es[0]);
      StepKeepsInv(o, s, es[0]);
      PendingIsUndecided(o, Step(o, s, es[0]), es[1..]);
    }
  }

  // ----- live calls -----

  predicate Signing(s: App, t: nat, callId: JsString) {
    t < |s.tasks| && s.tasks[t].AwaitingSignature? && s.tasks[t].call.id == callId
  }

  /** A token for the call is issued, or is being signed (line 170). */
  ghost predicate Live(s: App, callId: JsString) {
    (exists c :: c in s.tokens && c.tcid == callId) || (exists t :: Signing(s, t, callId))
  }

  /** A call with an id of its own does not become live again. */
  lemma LiveBefore(o: Options, s: App, e: Event, callId: JsString)
    requires Enabled(s, e) && callId in s.ids && Live(Step(o, s, e), callId)
    ensures Live(s, callId)
  {
    var s' := Step(o, s, e);
    if c :| c in s'.tokens && c.tcid == callId {
      NewToken(o, s, e, c);
      if c !in s.tokens { assert Signing(s, e.task, callId); }
    } else {
      var t :| Signing(s', t, callId);
      NewSigning(o, s, e, t, callId);
    }
  }

  lemma NewToken(o: Options, s: App, e: Event, c: Claims)
    requires Enabled(s, e) && c in Step(o, s, e).tokens
    ensures c in s.tokens || (e.Sign? && Signing(s, e.task, c.tcid))
  {
  }

  lemma NewSigning(o: Options, s: App, e: Event, t: nat, callId: JsString)
    requires Enabled(s, e) && callId in s.ids && Signing(Step(o, s, e), t, callId)
    ensures Signing(s, t, callId)
  {
  }

  lemma HeldIsKnown(o: Options, s: App, t: nat, callId: JsString)
    requires Inv(o, s) && Holds(s, t, callId)
    ensures callId in s.ids
  {
    assert TaskOk(o, s, s.tasks[t]);
    var session := s.sessions[s.tasks[t].key];
    IdOfPaused(o, s, Paused(session.owner, session.id, s.tasks[t].call));
  }

  // ----- decided at most once -----

  /** Handler `t` holds a live call that another handler holds too, or that is already decided. */
  ghost predicate Clash(s: App, t: nat, callId: JsString) {
    Holds(s, t, callId) && Live(s, callId) && (HeldElse(s, t, callId) || !Undecided(s.log, callId))
  }

  ghost predicate HeldElse(s: App, t: nat, callId: JsString) {
    exists u: nat :: u != t && Holds(s, u, callId)
  }

  ghost predicate Conflict(s: App) {
    exists t: nat, callId :: Clash(s, t, callId)
  }

  /** Under a serial begin a new handler holds a call that no handler holds and nobody decided. */
  lemma HolderBefore(o: Options, s: App, e: Event, t: nat, callId: JsString)
    requires Enabled(s, e) && SerialBegin(s, e) && PendingUndecided(s) && Holds(Step(o, s, e), t, callId)
    ensures Holds(s, t, callId) || (t == |s.tasks| && !Held(s, callId) && Undecided(s.log, callId))
  {
    NewHolder(o, s, e, t, callId);
  }

  lemma ClashBeforeOther(o: Options, s: App, e: Event, t: nat, callId: JsString)
    requires Inv(o, s) && PendingUndecided(s) && Enabled(s, e) && SerialBegin(s, e)
    requires OtherMove(s, Step(o, s, e)) && Clash(Step(o, s, e), t, callId)
    ensures Conflict(s)
  {
    hide Inv, Live, PendingUndecided, SerialBegin;
    var s' := Step(o, s, e);
    HolderBefore(o, s, e, t, callId);
    if Undecided(s.log, callId) { UndecidedGrows(s, s', callId); }
    if HeldElse(s', t, callId) {
      var u: nat :| u != t && Holds(s', u, callId);
      HolderBefore(o, s, e, u, callId);
    }
    assert Holds(s, t, callId);
    HeldIsKnown(o, s, t, callId);
    LiveBefore(o, s, e, callId);
    assert Clash(s, t, callId);
  }

  lemma AcceptedIsLive(o: Options, s: App, e: Event)
    requires Enabled(s, e) && e.FinishDecision? && AcceptMove(s, Step(o, s, e), e.task)
    ensures Live(s, s.tasks[e.task].call.id)
  {
    if e.verified.Some? { assert e.verified.value in s.tokens; }
  }

  lemma ClashBeforeAccept(o: Options, s: App, e: Event, t: nat, callId: JsString)
    requires Inv(o, s) && Enabled(s, e) && e.FinishDecision? && AcceptMove(s, Step(o, s, e), e.task)
    requires Clash(Step(o, s, e), t, callId)
    ensures Conflict(s)
  {
    hide Inv, Live;
    var s' := Step(o, s, e);
    var mine := s.tasks[e.task].call.id;
    assert Holds(s, e.task, mine) && Holds(s, t, callId) && t != e.task;
    AcceptedIsLive(o, s, e);
    HeldIsKnown(o, s, t, callId);
    LiveBefore(o, s, e, callId);
    if callId == mine {
      assert HeldElse(s, t, callId);
    } else if HeldElse(s', t, callId) {
      var u: nat :| u != t && Holds(s', u, callId);
      assert Holds(s, u, callId);
    } else if Undecided(s.log, callId) {
      StaysUndecided(s.log, s'.log[|s.log|], callId);
    }
    assert Clash(s, t, callId);
  }

  lemma StepKeepsNoConflict(o: Options, s: App, e: Event)
    requires Inv(o, s) && PendingUndecided(s) && Enabled(s, e) && SerialBegin(s, e) && !Conflict(s)
    ensures !Conflict(Step(o, s, e))
  {
    hide Inv, Clash, PendingUndecided, SerialBegin;
    StepShape(o, s, e);
    if t: nat, callId :| Clash(Step(o, s, e), t, callId) {
      if OtherMove(s, Step(o, s, e)) {
        ClashBeforeOther(o, s, e, t, callId);
      } else {
        ClashBeforeAccept(o, s, e, t, callId);
      }
    }
  }

  lemma StepKeepsDecidedOnce(o: Options, s: App, e: Event)
    requires Enabled(s, e) && !Conflict(s) && DecidedOnce(s.log)
    ensures DecidedOnce(Step(o, s, e).log)
  {
    var s' := Step(o, s, e);
    StepShape(o, s, e);
    if OtherMove(s, s') {
      DecidedOnceOther(s, s');
    } else {
      var callId := s.tasks[e.task].call.id;
      AcceptedIsLive(o, s, e);
      assert Holds(s, e.task, callId) && !Clash(s, e.task, callId);
      DecidedOnceSnoc(s.log, s'.log[|s.log|]);
    }
  }

  lemma DecidedOnceOther(s: App, s': App)
    requires OtherMove(s, s') && DecidedOnce(s.log)
    ensures DecidedOnce(s'.log)
  {
  }

  lemma DecidedOnceSnoc(log: seq<LogEntry>, e: LogEntry)
    requires DecidedOnce(log) && IsDecision(e) && Undecided(log, e.callId)
    ensures DecidedOnce(log + [e])
  {
  }

  lemma {:induction false} SerialRunKeepsDecidedOnce(o: Options, s: App, es: seq<Event>)
    requires Inv(o, s) && PendingUndecided(s) && !Conflict(s) && DecidedOnce(s.log) && IsSerialRun(o, s, es)
    ensures IsRun(o, s, es) && DecidedOnce(RunFrom(o, s, es).log)
    decreases |es|
  {
    if es != [] {
      StepKeepsDecidedOnce(o, s, es[0]);
      StepKeepsNoConflict(o, s, es[0]);
      StepKeepsPendingUndecided(o, s, es[0]);
      StepKeepsInv(o, s, es[0]);
      SerialRunKeepsDecidedOnce(o, Step(o, s, es[0]), es[1..]);
    }
  }

  // ----- a conflict does lead to two decisions -----

  /** `es` is a serial run from `s` to `s'`, extending the log. */
  ghost predicate Leads(o: Options, s: App, es: seq<Event>, s': App) {
    IsSerialRun(o, s, es) && IsRun(o, s, es) && RunFrom(o, s, es) == s' && s.log <= s'.log && Inv(o, s')
  }

  /** Tasks other than `t` are where they were, except that a signature may have arrived. */
  predicate OthersWait(s: App, s': App, t: nat) {
    |s'.tasks| == |s.tasks|
    && forall u: nat :: u < |s.tasks| && u != t && !s.tasks[u].AwaitingSignature? ==> s'.tasks[u] == s.tasks[u]
  }

  lemma LeadsNowhere(o: Options, s: App)
    requires Inv(o, s)
    ensures Leads(o, s, [], s)
  {
  }

  lemma LeadsOn(o: Options, s: App, es: seq<Event>, s': App, e: Event) returns (es': seq<Event>)
    requires Leads(o, s, es, s') && Enabled(s', e) && !e.BeginDecision? && s'.log <= Step(o, s', e).log
    ensures Leads(o, s, es', Step(o, s', e))
  {
    es' := es + [e];
    SerialThen(o, s, es, e);
    StepKeepsInv(o, s', e);
  }

  /** A live call's token can be issued now. */
  lemma Issue(o: Options, s: App, callId: JsString) returns (es: seq<Event>, s': App, c: Claims)
    requires Inv(o, s) && Live(s, callId)
    ensures Leads(o, s, es, s') && c in s'.tokens && c.tcid == callId
    ensures |s'.tasks| == |s.tasks|
    ensures forall u: nat :: u < |s.tasks| && !s.tasks[u].AwaitingSignature? ==> s'.tasks[u] == s.tasks[u]
  {
    if d :| d in s.tokens && d.tcid == callId {
      LeadsNowhere(o, s);
      es, s', c := [], s, d;
    } else {
      var u: nat :| Signing(s, u, callId);
      assert TaskOk(o, s, s.tasks[u]);
      LeadsNowhere(o, s);
      es := LeadsOn(o, s, [], s, Sign(u));
      s' := Step(o, s, Sign(u));
      var session := s.sessions[s.tasks[u].key];
      c := Claims(session.owner, session.id, callId);
    }
  }

  /** A handler that holds a live call can have it decided, whatever has happened to the call. */
  lemma Decide(o: Options, s: App, t: nat, callId: JsString) returns (es: seq<Event>, s': App, i: nat)
    requires Inv(o, s) && Holds(s, t, callId) && Live(s, callId)
    ensures Leads(o, s, es, s') && OthersWait(s, s', t) && Live(s', callId)
    ensures |s.log| <= i < |s'.log| && IsDecision(s'.log[i]) && s'.log[i].callId == callId
    ensures s'.tasks[t].Resuming? && s'.tasks[t].call == s.tasks[t].call && s'.tasks[t].approve == s.tasks[t].approve
  {
    var s1, c;
    es, s1, c := Issue(o, s, callId);
    assert Holds(s1, t, callId);
    HeldMatches(o, s1, t, c);
    var e := FinishDecision(t, Some(c));
    s' := Step(o, s1, e);
    es := LeadsOn(o, s, es, s1, e);
    i := |s1.log|;
    assert c in s'.tokens;
  }

  lemma LeadsTwice(o: Options, s: App, es: seq<Event>, s1: App, fs: seq<Event>, s2: App)
    requires Leads(o, s, es, s1) && Leads(o, s1, fs, s2)
    ensures Leads(o, s, es + fs, s2)
  {
    SerialAppend(o, s, es, fs);
  }

  lemma {:induction false} SerialAppend(o: Options, s: App, es: seq<Event>, fs: seq<Event>)
    requires IsSerialRun(o, s, es) && IsRun(o, s, es)
    requires IsSerialRun(o, RunFrom(o, s, es), fs) && IsRun(o, RunFrom(o, s, es), fs)
    ensures IsSerialRun(o, s, es + fs) && IsRun(o, s, es + fs)
    ensures RunFrom(o, s, es + fs) == RunFrom(o, RunFrom(o, s, es), fs)
    decreases |es|
  {
    if es == [] {
      assert es + fs == fs;
    } else {
      assert (es + fs)[1..] == es[1..] + fs;
      SerialAppend(o, Step(o, s, es[0]), es[1..], fs);
    }
  }

  lemma ConflictDecidesTwice(o: Options, s: App, t: nat, callId: JsString) returns (es: seq<Event>)
    requires Inv(o, s) && Clash(s, t, callId)
    ensures IsSerialRun(o, s, es) && IsRun(o, s, es) && !DecidedOnce(RunFrom(o, s, es).log)
  {
    hide IsSerialRun, IsRun, Inv, Live, DecidedOnce;
    var s1, i;
    es, s1, i := Decide(o, s, t, callId);
    if HeldElse(s, t, callId) {
      var u: nat :| u != t && Holds(s, u, callId);
      var fs, s2, j := Decide(o, s1, u, callId);
      LeadsTwice(o, s, es, s1, fs, s2);
      es := es + fs;
      TwoDecisions(s2.log, i, j);
    } else {
      var e :| e in s.log && IsDecision(e) && e.callId == callId;
      var k :| 0 <= k < |s.log| && s.log[k] == e;
      TwoDecisions(s1.log, k, i);
    }
  }

  lemma TwoDecisions(log: seq<LogEntry>, i: nat, j: nat)
    requires i < j < |log| && IsDecision(log[i]) && IsDecision(log[j]) && log[i].callId == log[j].callId
    ensures !DecidedOnce(log)
  {
  }

  ghost predicate KeepsDecidedOnce(o: Options, s: App, es: seq<Event>) {
    IsSerialRun(o, s, es) && IsRun(o, s, es) ==> DecidedOnce(RunFrom(o, s, es).log)
  }

  /**
   * From any reachable state: every continuation whose new decision requests do not overlap
   * decides each call at most once if and only if no live call is held by two handlers, or by
   * one although it is already decided.
   */
  lemma DecidedOnceIff(o: Options, before: seq<Event>)
    requires IsRun(o, INIT, before) && DecidedOnce(RunFrom(o, INIT, before).log)
    ensures var s := RunFrom(o, INIT, before);
      (forall es :: KeepsDecidedOnce(o, s, es)) <==> !Conflict(s)
  {
    RunKeepsInv(o, INIT, before);
    PendingIsUndecided(o, INIT, before);
    var s := RunFrom(o, INIT, before);
    hide IsRun, Inv, PendingUndecided, DecidedOnce, Clash, IsSerialRun;
    if t: nat, callId :| Clash(s, t, callId) {
      var es := ConflictDecidesTwice(o, s, t, callId);
      assert !KeepsDecidedOnce(o, s, es);
    } else {
      forall es ensures KeepsDecidedOnce(o, s, es) {
        if IsSerialRun(o, s, es) { SerialRunKeepsDecidedOnce(o, s, es); }
      }
    }
  }

  // ----- run at most once -----

  /** A handler or a resumed decision that can still run the call. */
  ghost predicate Source(s: App, t: nat, callId: JsString) {
    t < |s.tasks|
    && match s.tasks[t]
       case Verifying(_, call, approve) => approve && call.id == callId && Live(s, callId)
       case Resuming(_, call, approve, _) => approve && call.id == callId
       case _ => false
  }

  ghost predicate HasRun(log: seq<LogEntry>, callId: JsString) {
    exists e :: e in log && ApprovedRun(e) && e.call.id == callId
  }

  ghost predicate SourceElse(s: App, t: nat, callId: JsString) {
    exists u: nat :: u != t && Source(s, u, callId)
  }

  /** A call that can still run has another way to run, or has run. */
  ghost predicate RunClash(s: App, t: nat, callId: JsString) {
    Source(s, t, callId) && (SourceElse(s, t, callId) || HasRun(s.log, callId))
  }

  ghost predicate RunConflict(s: App) {
    exists t: nat, callId :: RunClash(s, t, callId)
  }

  /** What a transition adds to the runs: nothing, or the run of an approved, resumed call. */
  lemma RunsAdded(o: Options, s: App, e: Event)
    requires Enabled(s, e)
    ensures var s' := Step(o, s, e);
      s.log <= s'.log
      && ((forall i :: |s.log| <= i < |s'.log| ==> !ApprovedRun(s'.log[i]))
          || (e.Resume? && s.tasks[e.task].approve && |s'.log| == |s.log| + 2 && s'.tasks[e.task].AwaitingTool?
              && !ApprovedRun(s'.log[|s.log|]) && ApprovedRun(s'.log[|s.log| + 1])
              && s'.log[|s.log| + 1].call == s.tasks[e.task].call))
  {
  }

  /** A resumed decision is one that a handler accepted. */
  lemma NewResuming(o: Options, s: App, e: Event, t: nat)
    requires Enabled(s, e) && t < |Step(o, s, e).tasks| && Step(o, s, e).tasks[t].Resuming?
    ensures var s' := Step(o, s, e);
      t < |s.tasks|
      && (s.tasks[t] == s'.tasks[t]
          || (e.FinishDecision? && e.task == t && AcceptMove(s, s', t)
              && s.tasks[t].call == s'.tasks[t].call && s.tasks[t].approve == s'.tasks[t].approve))
  {
  }

  lemma NewVerifying(o: Options, s: App, e: Event, t: nat)
    requires Enabled(s, e) && t < |s.tasks| && Step(o, s, e).tasks[t].Verifying?
    ensures s.tasks[t] == Step(o, s, e).tasks[t]
  {
  }

  lemma SourceBefore(o: Options, s: App, e: Event, t: nat, callId: JsString)
    requires Inv(o, s) && Enabled(s, e) && SerialBegin(s, e) && PendingUndecided(s) && Source(Step(o, s, e), t, callId)
    ensures Source(s, t, callId) || (e.BeginDecision? && t == |s.tasks| && !Held(s, callId) && Undecided(s.log, callId))
  {
    hide Inv, PendingUndecided, SerialBegin, Live, Undecided, Held;
    var s' := Step(o, s, e);
    if s'.tasks[t].Resuming? {
      NewResuming(o, s, e, t);
      if s.tasks[t] != s'.tasks[t] { AcceptedIsLive(o, s, e); }
    } else {
      assert Holds(s', t, callId);
      NewHolder(o, s, e, t, callId);
      HolderBefore(o, s, e, t, callId);
      if Holds(s, t, callId) {
        NewVerifying(o, s, e, t);
        HeldIsKnown(o, s, t, callId);
        LiveBefore(o, s, e, callId);
      }
    }
  }

  lemma RunWasDecided(o: Options, s: App, callId: JsString)
    requires Inv(o, s) && HasRun(s.log, callId)
    ensures !Undecided(s.log, callId)
  {
    var e :| e in s.log && ApprovedRun(e) && e.call.id == callId;
    var i :| 0 <= i < |s.log| && s.log[i] == e;
    assert EntryOk(o, s.log[..i], s.log[i]);
    assert IsDecision(s.log[e.warrant.value]);
  }

  lemma ResumedWasDecided(o: Options, s: App, t: nat)
    requires Inv(o, s) && t < |s.tasks| && s.tasks[t].Resuming?
    ensures !Undecided(s.log, s.tasks[t].call.id)
  {
    assert TaskOk(o, s, s.tasks[t]) && IsDecision(s.log[s.tasks[t].warrant]);
  }

  lemma HasRunBefore(o: Options, s: App, e: Event, callId: JsString)
    requires Enabled(s, e) && HasRun(Step(o, s, e).log, callId)
    ensures HasRun(s.log, callId)
         || (e.Resume? && Source(s, e.task, callId) && !Source(Step(o, s, e), e.task, callId))
  {
    var s' := Step(o, s, e);
    RunsAdded(o, s, e);
    var r :| r in s'.log && ApprovedRun(r) && r.call.id == callId;
    var i :| 0 <= i < |s'.log| && s'.log[i] == r;
    if i < |s.log| { assert s.log[i] == r; }
  }

  lemma RunClashBefore(o: Options, s: App, e: Event, t: nat, callId: JsString)
    requires Inv(o, s) && PendingUndecided(s) && Enabled(s, e) && SerialBegin(s, e)
    requires RunClash(Step(o, s, e), t, callId)
    ensures RunConflict(s)
  {
    hide Inv, PendingUndecided, SerialBegin, HasRun, Source;
    var s' := Step(o, s, e);
    SourceBefore(o, s, e, t, callId);
    if SourceElse(s', t, callId) {
      var u: nat :| u != t && Source(s', u, callId);
      SourceBefore(o, s, e, u, callId);
      OldSources(o, s, t, u, callId);
      assert RunClash(s, t, callId) || RunClash(s, u, callId);
    } else {
      HasRunBefore(o, s, e, callId);
      if HasRun(s.log, callId) { RunWasDecided(o, s, callId); }
      if !HasRun(s.log, callId) { assert e.task != t && SourceElse(s, t, callId); }
      assert RunClash(s, t, callId);
    }
  }

  /** A call that nobody holds and nobody decided has no source. */
  lemma NoSource(o: Options, s: App, t: nat, callId: JsString)
    requires Inv(o, s) && !Held(s, callId) && Undecided(s.log, callId)
    ensures !Source(s, t, callId)
  {
    if t < |s.tasks| && s.tasks[t].Resuming? { ResumedWasDecided(o, s, t); }
    assert !Holds(s, t, callId);
  }

  lemma OldSources(o: Options, s: App, t: nat, u: nat, callId: JsString)
    requires Inv(o, s) && t != u
    requires Source(s, t, callId) || (t == |s.tasks| && !Held(s, callId) && Undecided(s.log, callId))
    requires Source(s, u, callId) || (u == |s.tasks| && !Held(s, callId) && Undecided(s.log, callId))
    ensures Source(s, t, callId) && Source(s, u, callId)
    ensures SourceElse(s, t, callId)
  {
    hide Inv, Held, Undecided, Source;
    if !Source(s, t, callId) { NoSource(o, s, u, callId); }
    if !Source(s, u, callId) { NoSource(o, s, t, callId); }
  }

  lemma StepKeepsNoRunConflict(o: Options, s: App, e: Event)
    requires Inv(o, s) && PendingUndecided(s) && Enabled(s, e) && SerialBegin(s, e) && !RunConflict(s)
    ensures !RunConflict(Step(o, s, e))
  {
    hide Inv, PendingUndecided, SerialBegin, RunClash;
    if t: nat, callId :| RunClash(Step(o, s, e), t, callId) { RunClashBefore(o, s, e, t, callId); }
  }

  lemma StepKeepsRunOnce(o: Options, s: App, e: Event)
    requires Enabled(s, e) && !RunConflict(s) && RunOnce(s.log)
    ensures RunOnce(Step(o, s, e).log)
  {
    var s' := Step(o, s, e);
    RunsAdded(o, s, e);
    if e.Resume? && s.tasks[e.task].approve {
      var callId := s.tasks[e.task].call.id;
      assert Source(s, e.task, callId) && !RunClash(s, e.task, callId);
      RunOnceGrows(s.log, s'.log, callId);
    } else {
      RunOnceGrows(s.log, s'.log, []);
    }
  }

  lemma RunOnceGrows(log: seq<LogEntry>, log': seq<LogEntry>, callId: JsString)
    requires RunOnce(log) && log <= log'
    requires (forall i :: |log| <= i < |log'| ==> !ApprovedRun(log'[i]))
          || (|log'| == |log| + 2 && !ApprovedRun(log'[|log|]) && ApprovedRun(log'[|log| + 1])
              && log'[|log| + 1].call.id == callId && !HasRun(log, callId))
    ensures RunOnce(log')
  {
    forall i, j | 0 <= i < j < |log'| && ApprovedRun(log'[i]) && ApprovedRun(log'[j])
      ensures log'[i].call.id != log'[j].call.id
    {
      assert i < |log| && log'[i] == log[i] && log[i] in log;
      if j < |log| { assert log'[j] == log[j]; }
    }
  }

  lemma {:induction false} SerialRunKeepsRunOnce(o: Options, s: App, es: seq<Event>)
    requires Inv(o, s) && PendingUndecided(s) && !RunConflict(s) && RunOnce(s.log) && IsSerialRun(o, s, es)
    ensures IsRun(o, s, es) && RunOnce(RunFrom(o, s, es).log)
    decreases |es|
  {
    if es != [] {
      StepKeepsRunOnce(o, s, es[0]);
      StepKeepsNoRunConflict(o, s, es[0]);
      StepKeepsPendingUndecided(o, s, es[0]);
      StepKeepsInv(o, s, es[0]);
      SerialRunKeepsRunOnce(o, Step(o, s, es[0]), es[1..]);
    }
  }

  /** A resumed decision runs its call. */
  lemma ResumeRuns(o: Options, s: App, t: nat, callId: JsString) returns (s': App)
    requires Inv(o, s) && t < |s.tasks| && s.tasks[t].Resuming? && s.tasks[t].approve && s.tasks[t].call.id == callId
    ensures Enabled(s, Event.Resume(t)) && s' == Step(o, s, Event.Resume(t)) && OthersWait(s, s', t)
    ensures Live(s, callId) ==> Live(s', callId)
    ensures s.log <= s'.log && |s'.log| == |s.log| + 2
    ensures ApprovedRun(s'.log[|s.log| + 1]) && s'.log[|s.log| + 1].call.id == callId
  {
    assert TaskOk(o, s, s.tasks[t]);
    s' := Step(o, s, Event.Resume(t));
    if Live(s, callId) { StillLive(o, s, t, callId); }
  }

  /** A source can be made to run, whatever else has happened to its call. */
  lemma RunSource(o: Options, s: App, t: nat, callId: JsString) returns (es: seq<Event>, s': App, i: nat)
    requires Inv(o, s) && Source(s, t, callId)
    ensures Leads(o, s, es, s') && OthersWait(s, s', t) && (Live(s, callId) ==> Live(s', callId))
    ensures |s.log| <= i < |s'.log| && ApprovedRun(s'.log[i]) && s'.log[i].call.id == callId
  {
    var s1, k := s, 0;
    if s.tasks[t].Verifying? {
      es, s1, k := Decide(o, s, t, callId);
    } else {
      LeadsNowhere(o, s);
      es := [];
    }
    hide Live, Inv, IsRun, IsSerialRun;
    assert Leads(o, s, es, s1) && Inv(o, s1);
    s' := ResumeRuns(o, s1, t, callId);
    es := LeadsOn(o, s, es, s1, Event.Resume(t));
    i := |s1.log| + 1;
  }

  lemma StillLive(o: Options, s: App, t: nat, callId: JsString)
    requires Enabled(s, Event.Resume(t)) && Live(s, callId)
    ensures Live(Step(o, s, Event.Resume(t)), callId)
  {
    var s' := Step(o, s, Event.Resume(t));
    if c :| c in s.tokens && c.tcid == callId {
      assert c in s'.tokens;
    } else {
      var u: nat :| Signing(s, u, callId);
      assert Signing(s', u, callId);
    }
  }

  lemma SourceWaits(s: App, s': App, t: nat, u: nat, callId: JsString)
    requires OthersWait(s, s', t) && u != t && Source(s, u, callId) && (Live(s, callId) ==> Live(s', callId))
    ensures Source(s', u, callId)
  {
  }

  lemma ConflictRunsTwice(o: Options, s: App, t: nat, callId: JsString) returns (es: seq<Event>)
    requires Inv(o, s) && RunClash(s, t, callId)
    ensures IsSerialRun(o, s, es) && IsRun(o, s, es) && !RunOnce(RunFrom(o, s, es).log)
  {
    hide IsSerialRun, IsRun, Inv, Live, RunOnce, Source;
    var s1, i;
    es, s1, i := RunSource(o, s, t, callId);
    if SourceElse(s, t, callId) {
      var u: nat :| u != t && Source(s, u, callId);
      SourceWaits(s, s1, t, u, callId);
      var fs, s2, j := RunSource(o, s1, u, callId);
      LeadsTwice(o, s, es, s1, fs, s2);
      es := es + fs;
      TwoRuns(s2.log, i, j);
    } else {
      var e :| e in s.log && ApprovedRun(e) && e.call.id == callId;
      var k :| 0 <= k < |s.log| && s.log[k] == e;
      TwoRuns(s1.log, k, i);
    }
  }

  lemma TwoRuns(log: seq<LogEntry>, i: nat, j: nat)
    requires i < j < |log| && ApprovedRun(log[i]) && ApprovedRun(log[j]) && log[i].call.id == log[j].call.id
    ensures !RunOnce(log)
  {
  }

  ghost predicate KeepsRunOnce(o: Options, s: App, es: seq<Event>) {
    IsSerialRun(o, s, es) && IsRun(o, s, es) ==> RunOnce(RunFrom(o, s, es).log)
  }

  /**
   * And each approved call runs at most once if and only if none that can still run, held by an
   * approving handler with a live token or resumed already, has another way to run or has run.
   */
  lemma RunOnceIff(o: Options, before: seq<Event>)
    requires IsRun(o, INIT, before) && RunOnce(RunFrom(o, INIT, before).log)
    ensures var s := RunFrom(o, INIT, before);
      (forall es :: KeepsRunOnce(o, s, es)) <==> !RunConflict(s)
  {
    RunKeepsInv(o, INIT, before);
    PendingIsUndecided(o, INIT, before);
    var s := RunFrom(o, INIT, before);
    hide IsRun, Inv, PendingUndecided, RunOnce, RunClash, IsSerialRun;
    if t: nat, callId :| RunClash(s, t, callId) {
      var es := ConflictRunsTwice(o, s, t, callId);
      assert !KeepsRunOnce(o, s, es);
    } else {
      forall es ensures KeepsRunOnce(o, s, es) {
        if IsSerialRun(o, s, es) { SerialRunKeepsRunOnce(o, s, es); }
      }
    }
  }
}
