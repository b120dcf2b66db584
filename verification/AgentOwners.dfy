/** No owner's step changes another owner's session; histories only grow. */
module AgentOwners {
  import opened Common
  import opened SessionKey
  import opened AgentProtocol
  import opened AgentSafety

  /** The key an event works on. */
  function TargetKey(s: App, e: Event): Option<JsString> {
    match e
    case Create(owner, id) => Some(KeyOf(owner, id))
    case Send(owner, id, _) => Some(KeyOf(owner, id))
    case BeginDecision(owner, id, _) => Some(KeyOf(owner, id))
    case _ => if e.task < |s.tasks| && !s.tasks[e.task].Done? then Some(s.tasks[e.task].key) else None
  }

  /** The owner on whose behalf an event happens: the requester, or the owner of the task's session. */
  function EventOwner(s: App, e: Event): Option<JsString> {
    match e
    case Create(owner, _) => Some(owner)
    case Send(owner, _, _) => Some(owner)
    case BeginDecision(owner, _, _) => Some(owner)
    case _ =>
      var k := TargetKey(s, e);
      if k.Some? && k.value in s.sessions then Some(s.sessions[k.value].owner) else None
  }

  lemma KeyNamesPair(s: App, owner: JsString, id: JsString)
    requires SessionsOk(s) && KeyOf(owner, id) in s.sessions
    ensures s.sessions[KeyOf(owner, id)].owner == owner && s.sessions[KeyOf(owner, id)].id == id
  {
    var session := s.sessions[KeyOf(owner, id)];
    KeyOfInjective(owner, id, session.owner, session.id);
  }

  /**
   * The string-keyed map is a map on (owner, id) pairs: what a lookup finds is the session of
   * that very owner and id, and a session that exists is found under its pair and no other.
   */
  lemma LookupIsByPair(o: Options, es: seq<Event>, owner: JsString, id: JsString, k: JsString)
    requires IsRun(o, INIT, es)
    ensures var s := RunFrom(o, INIT, es);
      k in s.sessions ==>
        (k == KeyOf(owner, id) <==> s.sessions[k].owner == owner && s.sessions[k].id == id)
  {
    RunKeepsInv(o, INIT, es);
    var s := RunFrom(o, INIT, es);
    if k in s.sessions && k == KeyOf(owner, id) { KeyNamesPair(s, owner, id); }
  }

  /** A transition touches the one session it works on, and never shortens a history. */
  lemma TouchesTarget(o: Options, s: App, e: Event, k: JsString)
    requires Enabled(s, e) && k in s.sessions
    ensures e.Create? || k in Step(o, s, e).sessions
    ensures Step(o, s, e).sessions.Keys >= s.sessions.Keys
    ensures TargetKey(s, e) != Some(k) ==> Step(o, s, e).sessions[k] == s.sessions[k]
    ensures !e.Create? ==> s.sessions[k].history <= Step(o, s, e).sessions[k].history
  {
  }

  /** A session changes only in a transition of its own owner, and its history only grows. */
  lemma OthersUntouched(o: Options, s: App, e: Event, k: JsString)
    requires Inv(o, s) && Enabled(s, e) && k in s.sessions
    ensures k in Step(o, s, e).sessions
    ensures s.sessions[k].history <= Step(o, s, e).sessions[k].history
    ensures Step(o, s, e).sessions[k] != s.sessions[k] ==> EventOwner(s, e) == Some(s.sessions[k].owner)
  {
    TouchesTarget(o, s, e, k);
    if TargetKey(s, e) == Some(k) {
      match e
      case Create(owner, id) => InvCreate(o, s, owner, id);
      case Send(owner, id, _) => KeyNamesPair(s, owner, id);
      case BeginDecision(owner, id, _) => KeyNamesPair(s, owner, id);
      case _ =>
    }
  }

  /** Over a whole run: a session stays, and what its history held stays a prefix. */
  lemma {:induction false} HistoryOnlyGrows(o: Options, s: App, es: seq<Event>, k: JsString)
    requires Inv(o, s) && IsRun(o, s, es) && k in s.sessions
    ensures k in RunFrom(o, s, es).sessions
    ensures s.sessions[k].history <= RunFrom(o, s, es).sessions[k].history
    decreases |es|
  {
    if es != [] {
      var s1 := Step(o, s, es[0]);
      OthersUntouched(o, s, es[0], k);
      StepKeepsInv(o, s, es[0]);
      HistoryOnlyGrows(o, s1, es[1..], k);
    }
  }

  ghost predicate NoEventOf(o: Options, s: App, es: seq<Event>, owner: JsString)
    requires IsRun(o, s, es)
    decreases |es|
  {
    es == [] || (EventOwner(s, es[0]) != Some(owner) && NoEventOf(o, Step(o, s, es[0]), es[1..], owner))
  }

  /** Over a whole run of other owners' events, a session is exactly what it was. */
  lemma {:induction false} RunsOfOthersChangeNothing(o: Options, s: App, es: seq<Event>, k: JsString)
    requires Inv(o, s) && IsRun(o, s, es) && k in s.sessions && NoEventOf(o, s, es, s.sessions[k].owner)
    ensures k in RunFrom(o, s, es).sessions && RunFrom(o, s, es).sessions[k] == s.sessions[k]
    decreases |es|
  {
    if es != [] {
      OthersUntouched(o, s, es[0], k);
      StepKeepsInv(o, s, es[0]);
      RunsOfOthersChangeNothing(o, Step(o, s, es[0]), es[1..], k);
    }
  }
}
