/**
 * What an owner is answered in any interleaving is what it is answered in the run of its own events
 * alone: the same replies, the same sessions, the same trail of log entries.
 */
module AgentAlone {
  import opened Common
  import opened SessionKey
  import opened AgentProtocol
  import opened AgentSafety
  import opened AgentOwners

  // ----- what an owner sees -----

  datatype Reply = Answered(status: Status) | Decided(accepted: bool) | Silent

  /** The answer of the handler that an event belongs to. */
  function ReplyTo(s: App, e: Event): Reply {
    match e
    case Send(owner, id, _) => Answered(SendStatus(s, owner, id))
    case BeginDecision(owner, id, _) => Answered(DecisionStatus(s, owner, id))
    case FinishDecision(t, verified) => Decided(AcceptedAt(s, t, verified))
    case _ => Silent
  }

  predicate AcceptedAt(s: App, t: nat, verified: Option<Claims>) {
    && t < |s.tasks| && s.tasks[t].Verifying? && s.tasks[t].key in s.sessions
    && verified.Some? && Matches(verified.value, s.sessions[s.tasks[t].key], s.tasks[t].call)
  }

  /** The replies to the events of `u` in a run. */
  ghost function Replies(o: Options, u: JsString, s: App, es: seq<Event>): seq<Reply>
    requires IsRun(o, s, es)
    decreases |es|
  {
    if es == [] then []
    else
      (if EventOwner(s, es[0]) == Some(u) then [ReplyTo(s, es[0])] else [])
      + Replies(o, u, Step(o, s, es[0]), es[1..])
  }

  /** A log entry without the position of its grant, which counts the entries of everybody. */
  function Unplaced(e: LogEntry): LogEntry {
    if e.Ran? && e.warrant.Some? then e.(warrant := Some(0)) else e
  }

  /** The log entries of `u`. */
  function Trail(u: JsString, log: seq<LogEntry>): seq<LogEntry> {
    if log == [] then []
    else
      var n := |log| - 1;
      Trail(u, log[..n]) + if log[n].owner == u then [Unplaced(log[n])] else []
  }

  lemma {:induction false} TrailOfOthers(u: JsString, log: seq<LogEntry>, more: seq<LogEntry>)
    requires forall e :: e in more ==> e.owner != u
    ensures Trail(u, log + more) == Trail(u, log)
    decreases |more|
  {
    if more == [] {
      assert log + more == log;
    } else {
      var n := |more| - 1;
      TrailOfOthers(u, log, more[..n]);
      assert (log + more)[..|log| + n] == log + more[..n];
      assert more[n] in more;
    }
  }

  // ----- the run of an owner's own events -----

  /** The place of task `t` among the owner's tasks. */
  function Place(at: seq<nat>, t: nat): (j: nat)
    ensures t in at ==> j < |at| && at[j] == t
  {
    if at == [] || at[0] == t then 0 else 1 + Place(at[1..], t)
  }

  /** The event among the owner's tasks alone; a token of somebody else is one that does not verify. */
  function Own(u: JsString, at: seq<nat>, e: Event): Event {
    match e
    case Advance(t) => Advance(Place(at, t))
    case ModelReply(t, turn, callId) => ModelReply(Place(at, t), turn, callId)
    case Sign(t) => Sign(Place(at, t))
    case ToolReply(t, output) => ToolReply(Place(at, t), output)
    case FinishDecision(t, verified) =>
      FinishDecision(Place(at, t), if verified.Some? && verified.value.sub == u then verified else None)
    case Resume(t) => Resume(Place(at, t))
    case Drop(t) => Drop(Place(at, t))
    case _ => e
  }

  /** The new task of a step belongs to its owner. */
  function Longer(at: seq<nat>, s: App, s': App): seq<nat> {
    if |s'.tasks| > |s.tasks| then at + [|s.tasks|] else at
  }

  /** The events of `u` in a run; `at` lists the tasks that `u` has started. */
  ghost function OwnEvents(o: Options, u: JsString, s: App, at: seq<nat>, es: seq<Event>): seq<Event>
    requires IsRun(o, s, es)
    decreases |es|
  {
    if es == [] then []
    else
      var s1 := Step(o, s, es[0]);
      if EventOwner(s, es[0]) == Some(u) then [Own(u, at, es[0])] + OwnEvents(o, u, s1, Longer(at, s, s1), es[1..])
      else OwnEvents(o, u, s1, at, es[1..])
  }

  /** Every event of the run is one of `u`. */
  ghost predicate AllOwn(o: Options, u: JsString, s: App, es: seq<Event>)
    requires IsRun(o, s, es)
    decreases |es|
  {
    es == [] || (EventOwner(s, es[0]) == Some(u) && AllOwn(o, u, Step(o, s, es[0]), es[1..]))
  }

  // ----- how the two runs stay together -----

  function Unwarranted(t: Task): Task {
    if t.Resuming? then t.(warrant := 0) else t
  }

  predicate Owned(u: JsString, s: App, k: JsString) { k in s.sessions && s.sessions[k].owner == u }

  /** `s'` holds the sessions of `u` and no others. */
  ghost predicate SameSessions(u: JsString, s: App, s': App) {
    forall k :: (k in s'.sessions <==> Owned(u, s, k)) && (k in s'.sessions ==> s'.sessions[k] == s.sessions[k])
  }

  /** The tasks of `s'` are those of `u`, at the places that `at` lists. */
  ghost predicate SameTasks(u: JsString, s: App, s': App, at: seq<nat>) {
    && |at| == |s'.tasks| && NoDuplicates(at)
    && (forall j :: 0 <= j < |at| ==> at[j] < |s.tasks| && Unwarranted(s.tasks[at[j]]) == Unwarranted(s'.tasks[j]))
    && (forall j :: 0 <= j < |at| && !s'.tasks[j].Done? ==> Owned(u, s, s'.tasks[j].key))
    && (forall i :: 0 <= i < |s.tasks| && !s.tasks[i].Done? && Owned(u, s, s.tasks[i].key) ==> i in at)
  }

  ghost predicate SameTokens(u: JsString, s: App, s': App) {
    forall c :: c in s'.tokens <==> c in s.tokens && c.sub == u
  }

  ghost predicate View(u: JsString, s: App, s': App, at: seq<nat>) {
    && SameSessions(u, s, s') && SameTasks(u, s, s', at) && SameTokens(u, s, s') && s'.ids <= s.ids
    && Trail(u, s.log) == Trail(u, s'.log)
  }

  // ----- what a step leaves alone, and whose entries and tokens it adds -----

  predicate SameAt(s: App, s': App, k: JsString) {
    (k in s.sessions <==> k in s'.sessions) && (k in s.sessions ==> s.sessions[k] == s'.sessions[k])
  }

  /** The task an event resumes. */
  function TaskOf(e: Event): Option<nat> {
    match e
    case Create(_, _) => None
    case Send(_, _, _) => None
    case BeginDecision(_, _, _) => None
    case _ => Some(e.task)
  }

  /** The step works on the session at `key`, on task `t`, and adds a task, tokens and entries for them. */
  ghost predicate Frame(s: App, r: App, key: JsString, t: Option<nat>, owner: JsString) {
    && (forall k :: k != key ==> SameAt(s, r, k)) && (key in s.sessions ==> key in r.sessions)
    && (key in r.sessions ==> r.sessions[key].owner == owner)
    && |s.tasks| <= |r.tasks| <= |s.tasks| + 1
    && (forall i :: 0 <= i < |s.tasks| && Some(i) != t ==> r.tasks[i] == s.tasks[i])
    && (forall i :: 0 <= i < |r.tasks| && (Some(i) == t || i == |s.tasks|) && !r.tasks[i].Done? ==>
          r.tasks[i].key == key)
    && (|r.tasks| > |s.tasks| ==> key in r.sessions)
    && s.tokens <= r.tokens && (forall c :: c in r.tokens && c !in s.tokens ==> c.sub == owner)
    && s.ids <= r.ids
    && s.log <= r.log && (forall i :: |s.log| <= i < |r.log| ==> r.log[i].owner == owner)
  }

  /** What the frame refers to in the state before the step. */
  ghost predicate Works(s: App, key: JsString, t: Option<nat>, owner: JsString) {
    && (key in s.sessions ==> s.sessions[key].owner == owner)
    && (t.Some? ==>
          t.value < |s.tasks| && !s.tasks[t.value].Done? && s.tasks[t.value].key == key && key in s.sessions)
  }

  lemma RequestHasFrame(o: Options, s: App, e: Event)
    requires Enabled(s, e) && (e.Create? || e.Send? || e.BeginDecision?)
    requires KeyOf(e.owner, e.id) in s.sessions ==> s.sessions[KeyOf(e.owner, e.id)].owner == e.owner
    ensures Frame(s, Step(o, s, e), KeyOf(e.owner, e.id), None, e.owner)
  {
    hide KeyOf;
  }

  lemma ModelReplyHasFrame(o: Options, s: App, e: Event)
    requires Enabled(s, e) && e.ModelReply?
    ensures var key := s.tasks[e.task].key; Frame(s, Step(o, s, e), key, Some(e.task), s.sessions[key].owner)
  {
  }

  lemma TaskHasFrame(o: Options, s: App, e: Event)
    requires Enabled(s, e) && (e.Advance? || e.Sign? || e.ToolReply? || e.Resume? || e.Drop?)
    requires s.tasks[e.task].key in s.sessions
    ensures var key := s.tasks[e.task].key; Frame(s, Step(o, s, e), key, Some(e.task), s.sessions[key].owner)
  {
  }

  lemma FinishHasFrame(o: Options, s: App, e: Event)
    requires Enabled(s, e) && e.FinishDecision?
    ensures var key := s.tasks[e.task].key; Frame(s, Step(o, s, e), key, Some(e.task), s.sessions[key].owner)
  {
  }

  lemma StepHasFrame(o: Options, s: App, e: Event)
    requires Inv(o, s) && Enabled(s, e)
    ensures TargetKey(s, e).Some? && EventOwner(s, e).Some?
    ensures Works(s, TargetKey(s, e).value, TaskOf(e), EventOwner(s, e).value)
    ensures Frame(s, Step(o, s, e), TargetKey(s, e).value, TaskOf(e), EventOwner(s, e).value)
  {
    hide Step, Frame, KeyOf;
    match e
    case Create(owner, id) =>
      InvCreate(o, s, owner, id);
      RequestHasFrame(o, s, e);
    case Send(owner, id, _) =>
      if KeyOf(owner, id) in s.sessions { KeyNamesPair(s, owner, id); }
      RequestHasFrame(o, s, e);
    case BeginDecision(owner, id, _) =>
      if KeyOf(owner, id) in s.sessions { KeyNamesPair(s, owner, id); }
      RequestHasFrame(o, s, e);
    case ModelReply(_, _, _) => ModelReplyHasFrame(o, s, e);
    case FinishDecision(_, _) => FinishHasFrame(o, s, e);
    case _ =>
      assert TaskOk(o, s, s.tasks[e.task]);
      TaskHasFrame(o, s, e);
  }

  // ----- a step of somebody else -----

  lemma OthersStep(o: Options, u: JsString, s: App, s': App, at: seq<nat>, e: Event)
    requires Inv(o, s) && Enabled(s, e) && EventOwner(s, e) != Some(u) && View(u, s, s', at)
    ensures View(u, Step(o, s, e), s', at)
  {
    hide Step, Inv, Enabled;
    StepHasFrame(o, s, e);
    OthersFrame(u, s, Step(o, s, e), s', at, TargetKey(s, e).value, TaskOf(e), EventOwner(s, e).value);
  }

  lemma OthersFrame(u: JsString, s: App, r: App, s': App, at: seq<nat>, key: JsString, t: Option<nat>, owner: JsString)
    requires View(u, s, s', at) && Works(s, key, t, owner) && Frame(s, r, key, t, owner) && owner != u
    ensures View(u, r, s', at)
  {
    assert r.log == s.log + r.log[|s.log|..];
    TrailOfOthers(u, s.log, r.log[|s.log|..]);
    OthersTasks(u, s, r, s', at, key, t, owner);
    hide Trail, SameTasks;
    forall k ensures Owned(u, r, k) <==> Owned(u, s, k) {
      assert k != key ==> SameAt(s, r, k);
    }
    forall k | k in s'.sessions ensures r.sessions[k] == s.sessions[k] {
      assert Owned(u, s, k) && SameAt(s, r, k);
    }
  }

  lemma OthersTasks(u: JsString, s: App, r: App, s': App, at: seq<nat>, key: JsString, t: Option<nat>, owner: JsString)
    requires SameTasks(u, s, s', at) && Works(s, key, t, owner) && Frame(s, r, key, t, owner) && owner != u
    ensures SameTasks(u, r, s', at)
  {
    forall k ensures Owned(u, r, k) <==> Owned(u, s, k) {
      assert k != key ==> SameAt(s, r, k);
    }
    forall j | 0 <= j < |at| ensures Some(at[j]) != t {
      assert !s'.tasks[j].Done? ==> s'.tasks[j].key == s.tasks[at[j]].key;
    }
  }

  // ----- a step of the owner, in both runs -----

  function Issued(s: App, e: Event): set<Claims> {
    if e.Sign? && e.task < |s.tasks| && s.tasks[e.task].AwaitingSignature? && s.tasks[e.task].key in s.sessions then
      var session := s.sessions[s.tasks[e.task].key];
      {Claims(session.owner, session.id, s.tasks[e.task].call.id)}
    else {}
  }

  /** The two steps do the same to the session at `key`, to the resumed task and to the rest. */
  ghost predicate SameDone(s: App, r: App, s': App, r': App, key: JsString, t: Option<nat>, t': Option<nat>) {
    && SameAt(r, r', key)
    && |r.tasks| - |s.tasks| == |r'.tasks| - |s'.tasks| <= 1
    && (|r.tasks| > |s.tasks| >= 0 && |r'.tasks| > |s'.tasks| ==> r.tasks[|s.tasks|] == r'.tasks[|s'.tasks|])
    && (t.Some? <==> t'.Some?)
    && (t.Some? && t.value < |r.tasks| && t'.value < |r'.tasks| ==>
          Unwarranted(r.tasks[t.value]) == Unwarranted(r'.tasks[t'.value]))
    && (forall i :: i in r'.ids ==> i in s'.ids || i in r.ids)
    && |s.log| <= |r.log| && |s'.log| <= |r'.log| && |r.log| - |s.log| == |r'.log| - |s'.log|
    && (forall i, j :: |s.log| <= i < |r.log| && j - |s'.log| == i - |s.log| ==>
          Unplaced(r.log[i]) == Unplaced(r'.log[j]))
  }

  /** The task and its session are the same in both. */
  ghost predicate Twins(s: App, s': App, t: nat, t': nat) {
    && t < |s.tasks| && t' < |s'.tasks| && !s.tasks[t].Done? && Unwarranted(s.tasks[t]) == Unwarranted(s'.tasks[t'])
    && s.tasks[t].key in s.sessions && SameAt(s, s', s.tasks[t].key)
  }

  lemma SameRequest(o: Options, s: App, s': App, e: Event)
    requires Enabled(s, e) && Enabled(s', e) && (e.Create? || e.Send? || e.BeginDecision?)
    requires SameAt(s, s', KeyOf(e.owner, e.id))
    ensures SameDone(s, Step(o, s, e), s', Step(o, s', e), KeyOf(e.owner, e.id), None, None)
    ensures Step(o, s, e).tokens == s.tokens && Step(o, s', e).tokens == s'.tokens
    ensures ReplyTo(s, e) == ReplyTo(s', e)
  {
    hide KeyOf;
  }

  lemma SameModelReply(o: Options, s: App, s': App, t: nat, t': nat, turn: ModelTurn, callId: JsString)
    requires Twins(s, s', t, t') && s.tasks[t].AwaitingModel?
    ensures SameDone(s, StepModelReply(o, s, t, turn, callId), s', StepModelReply(o, s', t', turn, callId),
                     s.tasks[t].key, Some(t), Some(t'))
    ensures StepModelReply(o, s, t, turn, callId).tokens == s.tokens
    ensures StepModelReply(o, s', t', turn, callId).tokens == s'.tokens
  {
  }

  lemma SameFinish(s: App, s': App, t: nat, t': nat, verified: Option<Claims>, verified': Option<Claims>)
    requires Twins(s, s', t, t') && s.tasks[t].Verifying?
    requires verified' == verified
      || (verified'.None? && verified.Some? && verified.value.sub != s.sessions[s.tasks[t].key].owner)
    ensures SameDone(s, StepFinish(s, t, verified), s', StepFinish(s', t', verified'),
                     s.tasks[t].key, Some(t), Some(t'))
    ensures StepFinish(s, t, verified).tokens == s.tokens && StepFinish(s', t', verified').tokens == s'.tokens
    ensures AcceptedAt(s, t, verified) == AcceptedAt(s', t', verified')
  {
  }

  predicate SmallSteps(e: Event, e': Event) {
    || (e.Advance? && e'.Advance?) || (e.Sign? && e'.Sign?) || (e.Resume? && e'.Resume?) || (e.Drop? && e'.Drop?)
    || (e.ToolReply? && e'.ToolReply? && e'.output == e.output)
  }

  lemma SameApprovalStep(o: Options, s: App, s': App, e: Event, e': Event)
    requires Enabled(s, e) && Enabled(s', e') && SmallSteps(e, e') && (e.Sign? || e.Resume?)
    requires Twins(s, s', e.task, e'.task)
    ensures SameDone(s, Step(o, s, e), s', Step(o, s', e'), s.tasks[e.task].key, Some(e.task), Some(e'.task))
    ensures Step(o, s, e).tokens == s.tokens + Issued(s, e)
    ensures Step(o, s', e').tokens == s'.tokens + Issued(s, e)
  {
  }

  lemma SameLoopStep(o: Options, s: App, s': App, e: Event, e': Event)
    requires Enabled(s, e) && Enabled(s', e') && SmallSteps(e, e') && !e.Sign? && !e.Resume?
    requires Twins(s, s', e.task, e'.task)
    ensures SameDone(s, Step(o, s, e), s', Step(o, s', e'), s.tasks[e.task].key, Some(e.task), Some(e'.task))
    ensures Step(o, s, e).tokens == s.tokens + Issued(s, e)
    ensures Step(o, s', e').tokens == s'.tokens + Issued(s, e)
  {
  }

  lemma SameSmallStep(o: Options, s: App, s': App, e: Event, e': Event)
    requires Enabled(s, e) && Enabled(s', e') && SmallSteps(e, e')
    requires Twins(s, s', e.task, e'.task)
    ensures SameDone(s, Step(o, s, e), s', Step(o, s', e'), s.tasks[e.task].key, Some(e.task), Some(e'.task))
    ensures Step(o, s, e).tokens == s.tokens + Issued(s, e)
    ensures Step(o, s', e').tokens == s'.tokens + Issued(s, e)
  {
    hide Step, SameDone, Issued;
    if e.Sign? || e.Resume? { SameApprovalStep(o, s, s', e, e'); } else { SameLoopStep(o, s, s', e, e'); }
  }

  ghost predicate SameTokensAdded(s: App, r: App, s': App, r': App) {
    exists more: set<Claims> :: r.tokens == s.tokens + more && r'.tokens == s'.tokens + more
  }

  /** Task `t` of the owner is task `t'` of its own run. */
  predicate Placed(at: seq<nat>, t: Option<nat>, t': Option<nat>) {
    if t.None? then t'.None? else t'.Some? && t'.value < |at| && at[t'.value] == t.value
  }

  ghost predicate BothStep(u: JsString, s: App, r: App, s': App, r': App, at: seq<nat>, key: JsString,
                           t: Option<nat>, t': Option<nat>) {
    && Works(s, key, t, u) && Frame(s, r, key, t, u) && Frame(s', r', key, t', u)
    && SameDone(s, r, s', r', key, t, t') && Placed(at, t, t')
  }

  lemma OwnSessions(u: JsString, s: App, r: App, s': App, r': App, at: seq<nat>, key: JsString,
                    t: Option<nat>, t': Option<nat>)
    requires BothStep(u, s, r, s', r', at, key, t, t') && SameSessions(u, s, s')
    ensures SameSessions(u, r, r')
    ensures forall k :: Owned(u, s, k) ==> Owned(u, r, k)
    ensures forall k :: Owned(u, r, k) && k != key ==> Owned(u, s, k)
  {
    forall k ensures (k in r'.sessions <==> Owned(u, r, k)) && (k in r'.sessions ==> r'.sessions[k] == r.sessions[k]) {
      if k != key { assert SameAt(s, r, k) && SameAt(s', r', k); }
    }
    forall k ensures Owned(u, s, k) ==> Owned(u, r, k) {
      if k != key { assert SameAt(s, r, k); }
    }
    forall k | k != key ensures Owned(u, r, k) ==> Owned(u, s, k) {
      assert SameAt(s, r, k);
    }
  }

  /** Every task works on a session that exists. */
  ghost predicate KeysKnown(s: App) {
    forall i :: 0 <= i < |s.tasks| && !s.tasks[i].Done? ==> s.tasks[i].key in s.sessions
  }

  lemma OwnTasksListed(u: JsString, s: App, r: App, s': App, r': App, at: seq<nat>, key: JsString,
                       t: Option<nat>, t': Option<nat>, i: nat)
    requires BothStep(u, s, r, s', r', at, key, t, t') && SameTasks(u, s, s', at) && KeysKnown(s)
    requires i < |r.tasks| && !r.tasks[i].Done? && Owned(u, r, r.tasks[i].key)
    ensures i in Longer(at, s, r)
  {
    if Some(i) == t {
      assert at[t'.value] in at;
    } else if i < |s.tasks| {
      var k := s.tasks[i].key;
      assert r.tasks[i] == s.tasks[i] && k in s.sessions;
      assert k != key ==> SameAt(s, r, k);
      assert Owned(u, s, k);
    }
  }

  lemma OwnTaskStays(u: JsString, s: App, r: App, s': App, r': App, at: seq<nat>, key: JsString,
                     t: Option<nat>, t': Option<nat>, j: nat)
    requires BothStep(u, s, r, s', r', at, key, t, t') && SameTasks(u, s, s', at)
    requires forall k :: Owned(u, s, k) ==> Owned(u, r, k)
    requires j < |at|
    ensures at[j] < |r.tasks| && |s'.tasks| <= |r'.tasks| && Unwarranted(r.tasks[at[j]]) == Unwarranted(r'.tasks[j])
    ensures !r'.tasks[j].Done? ==> Owned(u, r, r'.tasks[j].key)
  {
    hide SameAt;
    if Some(j) != t' {
      assert Some(at[j]) != t;
      assert r.tasks[at[j]] == s.tasks[at[j]] && r'.tasks[j] == s'.tasks[j];
    }
  }

  lemma OwnNewTask(u: JsString, s: App, r: App, s': App, r': App, at: seq<nat>, key: JsString,
                   t: Option<nat>, t': Option<nat>)
    requires BothStep(u, s, r, s', r', at, key, t, t') && SameTasks(u, s, s', at)
    ensures var at' := Longer(at, s, r);
      |at'| == |r'.tasks| && NoDuplicates(at')
      && (forall j :: |at| <= j < |at'| ==>
            && at'[j] < |r.tasks| && r.tasks[at'[j]] == r'.tasks[j]
            && (!r'.tasks[j].Done? ==> Owned(u, r, r'.tasks[j].key)))
  {
    hide SameAt;
  }

  lemma OwnTasks(u: JsString, s: App, r: App, s': App, r': App, at: seq<nat>, key: JsString,
                 t: Option<nat>, t': Option<nat>)
    requires BothStep(u, s, r, s', r', at, key, t, t') && SameSessions(u, s, s') && SameTasks(u, s, s', at)
    requires KeysKnown(s)
    ensures SameTasks(u, r, r', Longer(at, s, r))
  {
    hide BothStep, SameSessions;
    OwnSessions(u, s, r, s', r', at, key, t, t');
    OwnNewTask(u, s, r, s', r', at, key, t, t');
    var at' := Longer(at, s, r);
    forall i | 0 <= i < |r.tasks| && !r.tasks[i].Done? && Owned(u, r, r.tasks[i].key) ensures i in at' {
      OwnTasksListed(u, s, r, s', r', at, key, t, t', i);
    }
    forall j | 0 <= j < |at'|
      ensures at'[j] < |r.tasks| && Unwarranted(r.tasks[at'[j]]) == Unwarranted(r'.tasks[j])
      ensures !r'.tasks[j].Done? ==> Owned(u, r, r'.tasks[j].key)
    {
      if j < |at| { OwnTaskStays(u, s, r, s', r', at, key, t, t', j); }
    }
  }

  lemma OwnTrail(u: JsString, s: App, r: App, s': App, r': App, at: seq<nat>, key: JsString,
                 t: Option<nat>, t': Option<nat>)
    requires BothStep(u, s, r, s', r', at, key, t, t') && Trail(u, s.log) == Trail(u, s'.log)
    ensures Trail(u, r.log) == Trail(u, r'.log)
  {
    hide Trail, SameAt;
    var more, more' := r.log[|s.log|..], r'.log[|s'.log|..];
    assert r.log == s.log + more && r'.log == s'.log + more';
    forall i | 0 <= i < |more| ensures Unplaced(more[i]) == Unplaced(more'[i]) {
      assert more[i] == r.log[|s.log| + i] && more'[i] == r'.log[|s'.log| + i];
    }
    TrailsGrow(u, s.log, more, s'.log, more');
  }

  /** The trail grows by its owner's entries, one by one. */
  lemma TrailNext(u: JsString, log: seq<LogEntry>, more: seq<LogEntry>)
    requires more != [] && forall e :: e in more ==> e.owner == u
    ensures var n := |more| - 1;
      Trail(u, log + more) == Trail(u, log + more[..n]) + [Unplaced(more[n])]
      && forall e :: e in more[..n] ==> e.owner == u
  {
    var n := |more| - 1;
    assert (log + more)[..|log| + n] == log + more[..n];
    assert (log + more)[|log| + n] == more[n] && more[n] in more;
  }

  lemma {:induction false} TrailsGrow(u: JsString, log: seq<LogEntry>, more: seq<LogEntry>,
                                      log': seq<LogEntry>, more': seq<LogEntry>)
    requires Trail(u, log) == Trail(u, log') && |more| == |more'|
    requires (forall e :: e in more ==> e.owner == u) && (forall e :: e in more' ==> e.owner == u)
    requires forall i :: 0 <= i < |more| ==> Unplaced(more[i]) == Unplaced(more'[i])
    ensures Trail(u, log + more) == Trail(u, log' + more')
    decreases |more|
  {
    hide Trail, Unplaced;
    if more == [] {
      assert log + more == log && log' + more' == log';
    } else {
      var n := |more| - 1;
      TrailNext(u, log, more);
      TrailNext(u, log', more');
      TrailsGrow(u, log, more[..n], log', more'[..n]);
    }
  }

  lemma OwnView(u: JsString, s: App, r: App, s': App, r': App, at: seq<nat>, key: JsString,
                t: Option<nat>, t': Option<nat>)
    requires BothStep(u, s, r, s', r', at, key, t, t') && View(u, s, s', at) && KeysKnown(s)
    requires SameTokensAdded(s, r, s', r')
    ensures View(u, r, r', Longer(at, s, r))
  {
    OwnSessions(u, s, r, s', r', at, key, t, t');
    OwnTasks(u, s, r, s', r', at, key, t, t');
    OwnTrail(u, s, r, s', r', at, key, t, t');
    hide SameSessions, SameTasks, Trail, SameAt;
  }

  /** The event of the owner's own run can happen there, is the owner's, and is answered the same. */
  ghost predicate SameAnswer(o: Options, u: JsString, s: App, s': App, e: Event, e': Event) {
    && Enabled(s, e) && Enabled(s', e') && EventOwner(s', e') == Some(u) && TargetKey(s', e') == TargetKey(s, e)
    && ReplyTo(s, e) == ReplyTo(s', e')
    && SameTokensAdded(s, Step(o, s, e), s', Step(o, s', e'))
    && TargetKey(s, e).Some?
    && SameDone(s, Step(o, s, e), s', Step(o, s', e'), TargetKey(s, e).value, TaskOf(e), TaskOf(e'))
  }

  lemma OwnRequest(o: Options, u: JsString, s: App, s': App, at: seq<nat>, e: Event)
    requires Inv(o, s) && View(u, s, s', at) && Enabled(s, e) && EventOwner(s, e) == Some(u) && TaskOf(e).None?
    ensures SameAnswer(o, u, s, s', e, e)
  {
    var key := KeyOf(u, e.id);
    if key in s.sessions { KeyNamesPair(s, u, e.id); }
    assert Owned(u, s, key) <==> key in s.sessions;
    hide Inv, KeyOf;
    SameRequest(o, s, s', e);
    hide Step;
    assert Step(o, s, e).tokens == s.tokens + {} && Step(o, s', e).tokens == s'.tokens + {};
  }

  lemma OwnTwins(u: JsString, s: App, s': App, at: seq<nat>, t: nat)
    requires View(u, s, s', at) && t < |s.tasks| && !s.tasks[t].Done? && Owned(u, s, s.tasks[t].key)
    ensures t in at && Twins(s, s', t, Place(at, t)) && s'.sessions[s.tasks[t].key].owner == u
    ensures s'.tasks[Place(at, t)].key == s.tasks[t].key
  {
  }

  lemma OwnModelReply(o: Options, u: JsString, s: App, s': App, e: Event, e': Event)
    requires Enabled(s, e) && e.ModelReply? && e'.ModelReply? && e'.turn == e.turn && e'.callId == e.callId
    requires Twins(s, s', e.task, e'.task) && s'.tasks[e'.task].key == s.tasks[e.task].key
    requires s'.sessions[s.tasks[e.task].key].owner == u && s'.ids <= s.ids
    ensures SameAnswer(o, u, s, s', e, e')
  {
    SameModelReply(o, s, s', e.task, e'.task, e.turn, e.callId);
    hide StepModelReply;
    assert Step(o, s, e).tokens == s.tokens + {} && Step(o, s', e').tokens == s'.tokens + {};
  }

  lemma OwnFinish(o: Options, u: JsString, s: App, s': App, e: Event, e': Event)
    requires Enabled(s, e) && e.FinishDecision? && e'.FinishDecision?
    requires e'.verified == if e.verified.Some? && e.verified.value.sub == u then e.verified else None
    requires Twins(s, s', e.task, e'.task) && s'.tasks[e'.task].key == s.tasks[e.task].key
    requires s'.sessions[s.tasks[e.task].key].owner == u && SameTokens(u, s, s')
    ensures SameAnswer(o, u, s, s', e, e')
  {
    SameFinish(s, s', e.task, e'.task, e.verified, e'.verified);
    hide StepFinish;
    assert Step(o, s, e).tokens == s.tokens + {} && Step(o, s', e').tokens == s'.tokens + {};
  }

  lemma OwnSmallStep(o: Options, u: JsString, s: App, s': App, e: Event, e': Event)
    requires Enabled(s, e) && SmallSteps(e, e')
    requires Twins(s, s', e.task, e'.task) && s'.tasks[e'.task].key == s.tasks[e.task].key
    requires s'.sessions[s.tasks[e.task].key].owner == u
    ensures SameAnswer(o, u, s, s', e, e')
  {
    SameSmallStep(o, s, s', e, e');
    hide Step, SameDone;
  }

  lemma OwnResumed(o: Options, u: JsString, s: App, s': App, at: seq<nat>, e: Event)
    requires View(u, s, s', at) && Enabled(s, e) && EventOwner(s, e) == Some(u) && TaskOf(e).Some?
    ensures SameAnswer(o, u, s, s', e, Own(u, at, e))
  {
    var e' := Own(u, at, e);
    OwnTwins(u, s, s', at, e.task);
    hide SameAnswer, Twins, SameTasks, SameSessions, Trail;
    match e
    case ModelReply(_, _, _) => OwnModelReply(o, u, s, s', e, e');
    case FinishDecision(_, _) => OwnFinish(o, u, s, s', e, e');
    case _ => OwnSmallStep(o, u, s, s', e, e');
  }

  lemma OwnStep(o: Options, u: JsString, s: App, s': App, at: seq<nat>, e: Event)
    requires Inv(o, s) && Inv(o, s') && View(u, s, s', at) && Enabled(s, e) && EventOwner(s, e) == Some(u)
    ensures Enabled(s', Own(u, at, e)) && EventOwner(s', Own(u, at, e)) == Some(u)
    ensures ReplyTo(s', Own(u, at, e)) == ReplyTo(s, e)
    ensures var r := Step(o, s, e); View(u, r, Step(o, s', Own(u, at, e)), Longer(at, s, r))
  {
    var e' := Own(u, at, e);
    if TaskOf(e).Some? {
      OwnResumed(o, u, s, s', at, e);
      OwnTwins(u, s, s', at, e.task);
    } else {
      OwnRequest(o, u, s, s', at, e);
    }
    StepHasFrame(o, s, e);
    StepHasFrame(o, s', e');
    TasksHaveSessions(o, s);
    hide Inv, Enabled, Step, Frame, View, SameDone;
    OwnView(u, s, Step(o, s, e), s', Step(o, s', e'), at, TargetKey(s, e).value, TaskOf(e), TaskOf(e'));
  }

  lemma TasksHaveSessions(o: Options, s: App)
    requires Inv(o, s)
    ensures KeysKnown(s)
  {
    forall i | 0 <= i < |s.tasks| && !s.tasks[i].Done? ensures s.tasks[i].key in s.sessions {
      assert TaskOk(o, s, s.tasks[i]);
    }
  }

  // ----- whole runs -----

  /** From states that agree on `u`, a run and its events of `u` alone give `u` the same answers and view. */
  lemma {:induction false} RunsAgree(o: Options, u: JsString, s: App, s': App, at: seq<nat>, es: seq<Event>)
    returns (at': seq<nat>)
    requires Inv(o, s) && Inv(o, s') && View(u, s, s', at) && IsRun(o, s, es)
    ensures var own := OwnEvents(o, u, s, at, es);
      IsRun(o, s', own) && AllOwn(o, u, s', own)
      && Replies(o, u, s', own) == Replies(o, u, s, es)
      && View(u, RunFrom(o, s, es), RunFrom(o, s', own), at')
    decreases |es|
  {
    hide Inv, Enabled, Step, View, Own, EventOwner, ReplyTo, Longer;
    if es == [] {
      at' := at;
    } else {
      var e := es[0];
      var s1 := Step(o, s, e);
      StepKeepsInv(o, s, e);
      if EventOwner(s, e) == Some(u) {
        OwnStep(o, u, s, s', at, e);
        var e' := Own(u, at, e);
        StepKeepsInv(o, s', e');
        var rest := OwnEvents(o, u, s1, Longer(at, s, s1), es[1..]);
        at' := RunsAgree(o, u, s1, Step(o, s', e'), Longer(at, s, s1), es[1..]);
        assert OwnEvents(o, u, s, at, es) == [e'] + rest && ([e'] + rest)[1..] == rest;
      } else {
        OthersStep(o, u, s, s', at, e);
        at' := RunsAgree(o, u, s1, s', at, es[1..]);
      }
    }
  }

  /**
   * Every owner is alone: in any interleaving it gets the replies, sessions and log entries of the
   * run with only its own events.
   */
  lemma EachOwnerIsAlone(o: Options, u: JsString, es: seq<Event>)
    requires IsRun(o, INIT, es)
    ensures var own := OwnEvents(o, u, INIT, [], es);
      IsRun(o, INIT, own) && AllOwn(o, u, INIT, own)
      && Replies(o, u, INIT, own) == Replies(o, u, INIT, es)
      && SameSessions(u, RunFrom(o, INIT, es), RunFrom(o, INIT, own))
      && Trail(u, RunFrom(o, INIT, own).log) == Trail(u, RunFrom(o, INIT, es).log)
  {
    RunKeepsInv(o, INIT, []);
    var at := RunsAgree(o, u, INIT, INIT, [], es);
  }
}
