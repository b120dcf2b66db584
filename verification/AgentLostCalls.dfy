/**
 * When a pending call of examples/agent-loop.ts can be lost: a decision on another call, accepted
 * by a handler that read it earlier, sets `pending` to null (line 258) whatever is pending then.
 */
module AgentLostCalls {
  import opened Common
  import opened SessionKey
  import opened AgentProtocol
  import opened AgentSafety
  import opened AgentRuns
  import opened AgentDecisions
  import opened AgentSingleUse

  /** The session at `key` waits for a decision on `call`. */
  predicate Waits(s: App, key: JsString, call: Call) {
    key in s.sessions && s.sessions[key].pending == Some(call)
  }

  /** The event is an accepted decision on another call of that session. */
  ghost predicate ClearsOther(s: App, e: Event, key: JsString, call: Call) {
    && Enabled(s, e) && e.FinishDecision? && s.tasks[e.task].key == key && s.tasks[e.task].call.id != call.id
    && e.verified.Some? && Matches(e.verified.value, s.sessions[key], s.tasks[e.task].call)
  }

  /** A run in which `call` stays pending until a decision on another call clears it. */
  ghost predicate LosingRun(o: Options, s: App, es: seq<Event>, key: JsString, call: Call)
    decreases |es|
  {
    && es != [] && Waits(s, key, call) && Enabled(s, es[0])
    && if ClearsOther(s, es[0], key, call) then IsRun(o, Step(o, s, es[0]), es[1..])
       else LosingRun(o, Step(o, s, es[0]), es[1..], key, call)
  }

  /** A handler of the session holds another call, whose token is issued or being signed. */
  ghost predicate HoldsOther(s: App, t: nat, key: JsString, call: Call) {
    && t < |s.tasks| && s.tasks[t].Verifying? && s.tasks[t].key == key
    && s.tasks[t].call.id != call.id && Live(s, s.tasks[t].call.id)
  }

  /** A handler that starts while `call` is pending holds `call`. */
  lemma HeldOtherBefore(o: Options, s: App, e: Event, t: nat, key: JsString, call: Call)
    requires Inv(o, s) && Enabled(s, e) && Waits(s, key, call) && HoldsOther(Step(o, s, e), t, key, call)
    ensures HoldsOther(s, t, key, call)
  {
    var callId := Step(o, s, e).tasks[t].call.id;
    NewHolder(o, s, e, t, callId);
    if t < |s.tasks| {
      NewVerifying(o, s, e, t);
      HeldIsKnown(o, s, t, callId);
      LiveBefore(o, s, e, callId);
    }
  }

  lemma ClearingIsHeld(s: App, e: Event, key: JsString, call: Call)
    requires ClearsOther(s, e, key, call)
    ensures HoldsOther(s, e.task, key, call)
  {
    assert e.verified.value in s.tokens && e.verified.value.tcid == s.tasks[e.task].call.id;
  }

  lemma {:induction false} LosingNeedsHolder(o: Options, s: App, es: seq<Event>, key: JsString, call: Call)
    returns (t: nat)
    requires Inv(o, s) && LosingRun(o, s, es, key, call)
    ensures HoldsOther(s, t, key, call)
    decreases |es|
  {
    var e := es[0];
    if ClearsOther(s, e, key, call) {
      ClearingIsHeld(s, e, key, call);
      t := e.task;
    } else {
      StepKeepsInv(o, s, e);
      t := LosingNeedsHolder(o, Step(o, s, e), es[1..], key, call);
      hide Inv, Enabled, LosingRun;
      HeldOtherBefore(o, s, e, t, key, call);
    }
  }

  /** With the token issued the handler's decision is accepted and clears what is pending. */
  lemma IssuedLoses(o: Options, s: App, t: nat, key: JsString, call: Call, c: Claims)
    requires Inv(o, s) && Waits(s, key, call) && HoldsOther(s, t, key, call)
    requires c in s.tokens && c.tcid == s.tasks[t].call.id
    ensures LosingRun(o, s, [FinishDecision(t, Some(c))], key, call)
  {
    HeldMatches(o, s, t, c);
    assert [FinishDecision(t, Some(c))][1..] == [];
  }

  /** With the token being signed it is so after the signature. */
  lemma SignatureLeaves(o: Options, s: App, u: nat, t: nat, key: JsString, call: Call) returns (c: Claims)
    requires Inv(o, s) && Waits(s, key, call) && HoldsOther(s, t, key, call) && Signing(s, u, s.tasks[t].call.id)
    ensures Enabled(s, Sign(u)) && !ClearsOther(s, Sign(u), key, call)
    ensures var s1 := Step(o, s, Sign(u));
      Waits(s1, key, call) && c in s1.tokens && c.tcid == s.tasks[t].call.id
      && HoldsOther(s1, t, key, call) && s1.tasks[t] == s.tasks[t]
  {
    assert TaskOk(o, s, s.tasks[u]);
    var session := s.sessions[s.tasks[u].key];
    c := Claims(session.owner, session.id, s.tasks[t].call.id);
    assert c in Step(o, s, Sign(u)).tokens;
  }

  lemma HolderLoses(o: Options, s: App, t: nat, key: JsString, call: Call) returns (es: seq<Event>)
    requires Inv(o, s) && Waits(s, key, call) && HoldsOther(s, t, key, call)
    ensures LosingRun(o, s, es, key, call)
  {
    var callId := s.tasks[t].call.id;
    if c :| c in s.tokens && c.tcid == callId {
      IssuedLoses(o, s, t, key, call, c);
      es := [FinishDecision(t, Some(c))];
    } else {
      var u: nat :| Signing(s, u, callId);
      var c := SignatureLeaves(o, s, u, t, key, call);
      StepKeepsInv(o, s, Sign(u));
      hide Inv, Enabled, Step, HoldsOther, ClearsOther, Waits;
      IssuedLoses(o, Step(o, s, Sign(u)), t, key, call, c);
      var rest := [FinishDecision(t, Some(c))];
      es := [Sign(u)] + rest;
      assert es[1..] == rest;
    }
  }

  /**
   * Exactly when a pending call can be lost: some continuation keeps it pending until a decision on
   * another call clears it, if and only if a handler of its session already holds another call
   * whose token is issued or being signed.
   */
  lemma LostIff(o: Options, s: App, key: JsString, call: Call)
    requires Inv(o, s) && Waits(s, key, call)
    ensures (exists es :: LosingRun(o, s, es, key, call)) <==> (exists t :: HoldsOther(s, t, key, call))
  {
    hide Inv, LosingRun, HoldsOther, Waits;
    if es :| LosingRun(o, s, es, key, call) {
      var t := LosingNeedsHolder(o, s, es, key, call);
    }
    if t: nat :| HoldsOther(s, t, key, call) {
      var es := HolderLoses(o, s, t, key, call);
    }
  }

  // ----- a call that is lost for good -----

  /**
   * A handler waits with call A while another loop of the session pauses call B. The handler then
   * accepts A's dead token, and clears B: B's token is dead and no continuation accepts it.
   */
  lemma SupersedingCallIsLost(o: Options, s: App, t: nat, a: Claims, b: Claims, es: seq<Event>)
    requires Inv(o, s) && a in s.tokens && b in s.tokens && a.tcid != b.tcid
    requires Holds(s, t, a.tcid) && s.tasks[t].key == KeyOf(b.sub, b.sid)
    requires Redeemable(s, b) && !Held(s, b.tcid)
    ensures var finish := FinishDecision(t, Some(a));
      && !Redeemable(s, a) && Accepts(s, finish, a)
      && var s' := Step(o, s, finish);
         && !Redeemable(s', b)
         && (IsRun(o, s', es) ==> !EverAccepted(o, s', es, b))
  {
    var finish := FinishDecision(t, Some(a));
    HeldMatches(o, s, t, a);
    var s' := Step(o, s, finish);
    assert KeyOf(a.sub, a.sid) == s.tasks[t].key by {
      assert TaskOk(o, s, s.tasks[t]);
    }
    StepKeepsInv(o, s, finish);
    assert forall u: nat :: Holds(s', u, b.tcid) ==> Holds(s, u, b.tcid);
    if IsRun(o, s', es) { UnheldIsNeverAccepted(o, s', es, b); }
  }

  lemma Next(o: Options, es: seq<Event>, e: Event) returns (es': seq<Event>)
    requires IsSerialRun(o, INIT, es) && IsRun(o, INIT, es)
    requires Enabled(RunFrom(o, INIT, es), e) && SerialBegin(RunFrom(o, INIT, es), e)
    ensures IsSerialRun(o, INIT, es') && IsRun(o, INIT, es')
    ensures RunFrom(o, INIT, es') == Step(o, RunFrom(o, INIT, es), e)
  {
    es' := es + [e];
    SerialThen(o, INIT, es, e);
  }

  /** Two loops of one session wait for the model. */
  lemma TwoLoops(o: Options, owner: JsString, sid: JsString) returns (es: seq<Event>)
    requires o.maxSteps > 0
    ensures IsRun(o, INIT, es) && IsSerialRun(o, INIT, es)
    ensures var s, key := RunFrom(o, INIT, es), KeyOf(owner, sid);
      && s.tasks == [AwaitingModel(key, 0), AwaitingModel(key, 0)] && s.tokens == {} && s.ids == {sid}
      && key in s.sessions && s.sessions[key].owner == owner && s.sessions[key].id == sid
  {
    es := [];
    es := Next(o, es, Create(owner, sid));
    es := Next(o, es, Send(owner, sid, "one"));
    es := Next(o, es, Send(owner, sid, "two"));
    es := Next(o, es, Advance(0));
    es := Next(o, es, Advance(1));
  }

  /** A loop pauses a call and its token is issued. */
  lemma PauseAndSign(o: Options, es: seq<Event>, t: nat, call: Call) returns (es': seq<Event>)
    requires IsRun(o, INIT, es) && IsSerialRun(o, INIT, es)
    requires call.name in o.tools && o.tools[call.name].risky
    requires SafeParse(o.tools[call.name], call.input) == Some(call.input)
    requires var s := RunFrom(o, INIT, es);
      t < |s.tasks| && s.tasks[t].AwaitingModel? && s.tasks[t].key in s.sessions && call.id !in s.ids
    ensures IsRun(o, INIT, es') && IsSerialRun(o, INIT, es')
    ensures var s, s' := RunFrom(o, INIT, es), RunFrom(o, INIT, es');
      var key := s.tasks[t].key;
      var session := s.sessions[key];
      && s'.tasks == s.tasks[t := Done] && s'.ids == s.ids + {call.id}
      && s'.tokens == s.tokens + {Claims(session.owner, session.id, call.id)}
      && s'.sessions == s.sessions[key := session.(pending := Some(call))]
  {
    es' := Next(o, es, ModelReply(t, UseTool(call.name, call.input), call.id));
    var s1 := RunFrom(o, INIT, es');
    assert s1.tasks[t] == AwaitingSignature(RunFrom(o, INIT, es).tasks[t].key, call);
    es' := Next(o, es', Sign(t));
  }

  /** The first pauses its call, a handler reads that, and then the second pauses its own. */
  lemma HeldAndSuperseded(o: Options, owner: JsString, sid: JsString, a: Call, b: Call) returns (es: seq<Event>)
    requires a.name in o.tools && o.tools[a.name].risky && SafeParse(o.tools[a.name], a.input) == Some(a.input)
    requires b.name in o.tools && o.tools[b.name].risky && SafeParse(o.tools[b.name], b.input) == Some(b.input)
    requires o.maxSteps > 0 && sid != a.id && a.id != b.id && sid != b.id
    ensures IsRun(o, INIT, es) && IsSerialRun(o, INIT, es)
    ensures var s, key := RunFrom(o, INIT, es), KeyOf(owner, sid);
      && s.tasks == [Done, Done, Verifying(key, a, true)]
      && s.tokens == {Claims(owner, sid, a.id), Claims(owner, sid, b.id)}
      && key in s.sessions && s.sessions[key].pending == Some(b)
  {
    es := TwoLoops(o, owner, sid);
    es := PauseAndSign(o, es, 0, a);
    es := Next(o, es, BeginDecision(owner, sid, true));
    var key := KeyOf(owner, sid);
    assert RunFrom(o, INIT, es).tasks == [Done, AwaitingModel(key, 0), Verifying(key, a, true)];
    es := PauseAndSign(o, es, 1, b);
  }

  /** In such a state the handler's token is dead, and the pending call is held by nobody. */
  predicate Superseded(s: App, a: Claims, b: Claims) {
    && a in s.tokens && b in s.tokens && a.tcid != b.tcid && !Redeemable(s, a) && Redeemable(s, b)
    && Holds(s, 2, a.tcid) && s.tasks[2].key == KeyOf(b.sub, b.sid)
    && forall t: nat :: t < |s.tasks| ==> !Holds(s, t, b.tcid)
  }

  lemma IsSuperseded(s: App, owner: JsString, sid: JsString, a: Call, b: Call)
    requires var key := KeyOf(owner, sid);
      && s.tasks == [Done, Done, Verifying(key, a, true)]
      && s.tokens == {Claims(owner, sid, a.id), Claims(owner, sid, b.id)}
      && key in s.sessions && s.sessions[key].pending == Some(b)
    requires a.id != b.id
    ensures Superseded(s, Claims(owner, sid, a.id), Claims(owner, sid, b.id))
  {
  }

  /** This is reached although no two handlers ever hold one call. */
  lemma LostCallIsReachable() returns (o: Options, es: seq<Event>, a: Claims, b: Claims)
    ensures IsSerialRun(o, INIT, es) && IsRun(o, INIT, es)
    ensures Superseded(RunFrom(o, INIT, es), a, b)
  {
    hide IsRun, IsSerialRun, Superseded;
    var refund := Tool(true, (input: Json) => Some(input));
    o := Options(map["refund" := refund], 8);
    var callA, callB := Call([3], "refund", "A"), Call([4], "refund", "B");
    assert SafeParse(refund, "A") == Some("A") && SafeParse(refund, "B") == Some("B");
    assert [3][0] != [4][0] && [2][0] != [3][0] && [2][0] != [4][0];
    es := HeldAndSuperseded(o, [1], [2], callA, callB);
    IsSuperseded(RunFrom(o, INIT, es), [1], [2], callA, callB);
    a, b := Claims([1], [2], callA.id), Claims([1], [2], callB.id);
  }
}
