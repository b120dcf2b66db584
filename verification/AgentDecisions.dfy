/**
 * What overlapping decision requests can do in examples/agent-loop.ts, exactly.
 *
 * A decision handler compares the token with the call it read before its `await`. So the states
 * that matter are those in which handlers hold calls; they decide when a dead token can still be
 * accepted, when a call can be decided twice, and when it can run twice.
 */
module AgentDecisions {
  import opened Common
  import opened SessionKey
  import opened AgentProtocol
  import opened AgentSafety
  import opened AgentRuns

  // ----- dead tokens -----

  /** The event is a decision accepted with this token. */
  ghost predicate Accepts(s: App, e: Event, c: Claims) {
    && Enabled(s, e) && e.FinishDecision? && e.verified == Some(c)
    && Matches(c, s.sessions[s.tasks[e.task].key], s.tasks[e.task].call)
  }

  /** Some decision in the run is accepted with this token. */
  ghost predicate EverAccepted(o: Options, s: App, es: seq<Event>, c: Claims)
    requires IsRun(o, s, es)
    decreases |es|
  {
    es != [] && (Accepts(s, es[0], c) || EverAccepted(o, Step(o, s, es[0]), es[1..], c))
  }

  /** A run in which that happens. */
  ghost predicate AcceptingRun(o: Options, s: App, es: seq<Event>, c: Claims) {
    IsRun(o, s, es) && EverAccepted(o, s, es, c)
  }

  /** A handler that waits for the verifier has read this call. */
  predicate Holds(s: App, t: nat, callId: JsString) {
    t < |s.tasks| && s.tasks[t].Verifying? && s.tasks[t].call.id == callId
  }

  ghost predicate Held(s: App, callId: JsString) {
    exists t :: Holds(s, t, callId)
  }

  /** The session of a handler that holds the token's call is the token's session. */
  lemma HeldMatches(o: Options, s: App, t: nat, c: Claims)
    requires Inv(o, s) && c in s.tokens && Holds(s, t, c.tcid)
    ensures s.tasks[t].key in s.sessions && Matches(c, s.sessions[s.tasks[t].key], s.tasks[t].call)
    ensures Accepts(s, FinishDecision(t, Some(c)), c)
  {
    assert TaskOk(o, s, s.tasks[t]) && TokenOk(s, c);
    var session := s.sessions[s.tasks[t].key];
    var name, input :| Paused(c.sub, c.sid, Call(c.tcid, name, input)) in s.log;
    PausedOnce(o, s.log, Paused(c.sub, c.sid, Call(c.tcid, name, input)),
               Paused(session.owner, session.id, s.tasks[t].call));
  }

  /** Only the token's own session can have the token's call pending. */
  lemma PendingIsRedeemable(o: Options, s: App, k: JsString, c: Claims)
    requires Inv(o, s) && c in s.tokens && k in s.sessions
    requires s.sessions[k].pending.Some? && s.sessions[k].pending.value.id == c.tcid
    ensures Redeemable(s, c)
  {
    assert TokenOk(s, c);
    var session := s.sessions[k];
    var name, input :| Paused(c.sub, c.sid, Call(c.tcid, name, input)) in s.log;
    PausedOnce(o, s.log, Paused(c.sub, c.sid, Call(c.tcid, name, input)),
               Paused(session.owner, session.id, session.pending.value));
  }

  /** A transition adds a handler only for a call that is pending. */
  lemma NewHolder(o: Options, s: App, e: Event, t: nat, callId: JsString)
    requires Enabled(s, e) && Holds(Step(o, s, e), t, callId)
    ensures Holds(s, t, callId) || (t == |s.tasks| && e.BeginDecision? && DecisionStatus(s, e.owner, e.id) == Success200
                                    && s.sessions[KeyOf(e.owner, e.id)].pending.value.id == callId)
  {
  }

  lemma StaysUnheld(o: Options, s: App, e: Event, c: Claims)
    requires Inv(o, s) && Enabled(s, e) && c in s.tokens && !Redeemable(s, c) && !Held(s, c.tcid)
    ensures !Held(Step(o, s, e), c.tcid)
  {
    if t :| Holds(Step(o, s, e), t, c.tcid) {
      NewHolder(o, s, e, t, c.tcid);
      PendingIsRedeemable(o, s, KeyOf(e.owner, e.id), c);
    }
  }

  lemma UnheldIsRefused(s: App, e: Event, c: Claims)
    requires !Held(s, c.tcid)
    ensures !Accepts(s, e, c)
  {
    assert e.FinishDecision? ==> !Holds(s, e.task, c.tcid);
  }

  lemma HeldCanBeAccepted(o: Options, s: App, c: Claims) returns (es: seq<Event>)
    requires Inv(o, s) && c in s.tokens && Held(s, c.tcid)
    ensures AcceptingRun(o, s, es, c)
  {
    var t: nat :| Holds(s, t, c.tcid);
    HeldMatches(o, s, t, c);
    es := [FinishDecision(t, Some(c))];
    assert es[1..] == [];
  }

  lemma {:induction false} UnheldIsNeverAccepted(o: Options, s: App, es: seq<Event>, c: Claims)
    requires Inv(o, s) && IsRun(o, s, es) && c in s.tokens && !Redeemable(s, c) && !Held(s, c.tcid)
    ensures !EverAccepted(o, s, es, c)
    decreases |es|
  {
    if es != [] {
      var e := es[0];
      UnheldIsRefused(s, e, c);
      StaysUnheld(o, s, e, c);
      StepMovesPending(o, s, e);
      DeadAfter(o, s, Step(o, s, e), c);
      StepKeepsInv(o, s, e);
      UnheldIsNeverAccepted(o, Step(o, s, e), es[1..], c);
    }
  }

  /**
   * Exactly when a dead token can still be accepted: an issued token whose call is no longer
   * pending is accepted in some continuation if and only if a handler already holds its call.
   */
  lemma DeadTokenAcceptedIffHeld(o: Options, s: App, c: Claims)
    requires Inv(o, s) && c in s.tokens && !Redeemable(s, c)
    ensures (exists es :: AcceptingRun(o, s, es, c)) <==> Held(s, c.tcid)
  {
    if Held(s, c.tcid) {
      var es := HeldCanBeAccepted(o, s, c);
    } else {
      hide Held, Redeemable;
      forall es | IsRun(o, s, es) ensures !AcceptingRun(o, s, es, c) {
        UnheldIsNeverAccepted(o, s, es, c);
      }
    }
  }

  // ----- handlers that are not interrupted -----

  /** While a handler waits for the verifier nothing else happens. */
  predicate Uninterrupted(s: App, e: Event) {
    forall t :: 0 <= t < |s.tasks| && s.tasks[t].Verifying? ==> e.FinishDecision? && e.task == t
  }

  ghost predicate IsUninterruptedRun(o: Options, s: App, es: seq<Event>)
    decreases |es|
  {
    es == [] || (Enabled(s, es[0]) && Uninterrupted(s, es[0]) && IsUninterruptedRun(o, Step(o, s, es[0]), es[1..]))
  }

  /** The call a handler holds is the one pending in its session. */
  ghost predicate HeldIsPending(s: App) {
    forall t :: 0 <= t < |s.tasks| && s.tasks[t].Verifying? ==>
      s.tasks[t].key in s.sessions && s.sessions[s.tasks[t].key].pending == Some(s.tasks[t].call)
  }

  lemma StepKeepsHeldPending(o: Options, s: App, e: Event)
    requires HeldIsPending(s) && Enabled(s, e) && Uninterrupted(s, e)
    ensures HeldIsPending(Step(o, s, e))
  {
    var s' := Step(o, s, e);
    forall t | 0 <= t < |s'.tasks| && s'.tasks[t].Verifying?
      ensures s'.tasks[t].key in s'.sessions && s'.sessions[s'.tasks[t].key].pending == Some(s'.tasks[t].call)
    {
      NewHolder(o, s, e, t, s'.tasks[t].call.id);
    }
  }

  lemma {:induction false} UninterruptedRunKeeps(o: Options, s: App, es: seq<Event>)
    requires Inv(o, s) && HeldIsPending(s) && IsUninterruptedRun(o, s, es)
    ensures IsRun(o, s, es) && Inv(o, RunFrom(o, s, es)) && HeldIsPending(RunFrom(o, s, es))
    decreases |es|
  {
    if es != [] {
      StepKeepsHeldPending(o, s, es[0]);
      StepKeepsInv(o, s, es[0]);
      UninterruptedRunKeeps(o, Step(o, s, es[0]), es[1..]);
    }
  }

  /**
   * When no handler is interrupted at its `await`, every accepted decision is for the very call
   * that is pending when it is accepted, and its token is dead afterwards.
   */
  lemma AcceptedIsPending(o: Options, es: seq<Event>, t: nat, c: Claims)
    requires IsUninterruptedRun(o, INIT, es)
    requires IsRun(o, INIT, es) && Accepts(RunFrom(o, INIT, es), FinishDecision(t, Some(c)), c)
    ensures var s := RunFrom(o, INIT, es);
      && s.sessions[s.tasks[t].key].pending == Some(s.tasks[t].call) && Redeemable(s, c)
      && !Redeemable(Step(o, s, FinishDecision(t, Some(c))), c)
  {
    UninterruptedRunKeeps(o, INIT, es);
    var s := RunFrom(o, INIT, es);
    PendingIsRedeemable(o, s, s.tasks[t].key, c);
    var session := s.sessions[KeyOf(c.sub, c.sid)];
    assert s.tasks[t].key == KeyOf(c.sub, c.sid) by {
      var mine := s.sessions[s.tasks[t].key];
      assert mine.owner == c.sub && mine.id == c.sid;
    }
  }

  /** So a dead token stays without effect in every uninterrupted run. */
  lemma {:induction false} DeadIsNeverAccepted(o: Options, s: App, es: seq<Event>, c: Claims)
    requires Inv(o, s) && HeldIsPending(s) && IsUninterruptedRun(o, s, es) && c in s.tokens && !Redeemable(s, c)
    ensures IsRun(o, s, es) && !EverAccepted(o, s, es, c)
  {
    if t: nat :| Holds(s, t, c.tcid) { PendingIsRedeemable(o, s, s.tasks[t].key, c); }
    UninterruptedRunKeeps(o, s, es);
    UnheldIsNeverAccepted(o, s, es, c);
  }

  // ----- serial runs -----

  /** A request that starts while no handler waits overlaps with none. */
  lemma {:induction false} UninterruptedIsSerial(o: Options, s: App, es: seq<Event>)
    requires IsUninterruptedRun(o, s, es)
    ensures IsSerialRun(o, s, es)
    decreases |es|
  {
    if es != [] {
      assert es[0].BeginDecision? ==> forall t :: 0 <= t < |s.tasks| ==> !s.tasks[t].Verifying?;
      UninterruptedIsSerial(o, Step(o, s, es[0]), es[1..]);
    }
  }

  /** With handlers that are not interrupted, an approval is for single use without any condition. */
  lemma UninterruptedIsSingleUse(o: Options, es: seq<Event>)
    requires IsUninterruptedRun(o, INIT, es)
    ensures IsRun(o, INIT, es)
    ensures var log := RunFrom(o, INIT, es).log; DecidedOnce(log) && RunOnce(log) && DeniedNeverRuns(log)
  {
    UninterruptedIsSerial(o, INIT, es);
    SerialDecisionsAreSingleUse(o, es);
  }

  /** One more transition of a serial run. */
  lemma {:induction false} SerialThen(o: Options, s: App, es: seq<Event>, e: Event)
    requires IsSerialRun(o, s, es) && IsRun(o, s, es)
    requires Enabled(RunFrom(o, s, es), e) && SerialBegin(RunFrom(o, s, es), e)
    ensures IsSerialRun(o, s, es + [e]) && IsRun(o, s, es + [e])
    ensures RunFrom(o, s, es + [e]) == Step(o, RunFrom(o, s, es), e)
    decreases |es|
  {
    if es == [] {
      assert es + [e] == [e] && [e][1..] == [];
      var s1 := Step(o, s, e);
      assert IsSerialRun(o, s1, []) && IsRun(o, s1, []) && RunFrom(o, s1, []) == s1;
    } else {
      assert (es + [e])[1..] == es[1..] + [e];
      SerialThen(o, Step(o, s, es[0]), es[1..], e);
    }
  }
}
