/**
 * Sessions, leases and membership, and what moves an identity: adoption by a
 * runtime, operator continuity, wrapper claims, unregistration
 * (src/core/session-store.ts:25-45, 134-207 and 233-302;
 * src/mcp-server/redis-client.ts:30-42 and 119-185;
 * src/core/mailbox-continuity.ts:45-81; src/core/occupancy-guard.ts;
 * src/experimental-wrapper/identity-claim.ts). Each script or transaction is
 * one step; leases expire at any time; closing a session is three steps.
 */
module Identity {
  import opened Options

  type Agent = string
  type Sid = string
  type Token = string
  type Client = nat

  datatype Member = Member(agent: Agent, sid: Sid)

  /** Session records (their agent), live leases, agents' session sets, and every session ever created. */
  datatype Sessions = Sessions(records: map<Sid, Agent>, leases: set<Sid>, members: set<Member>, born: set<Sid>)

  // -------------------------------------------------- session scripts

  /** Record, lease and membership land together. */
  function Create(x: Sessions, sid: Sid, agent: Agent): Sessions {
    if sid in x.born then x
    else Sessions(x.records[sid := agent], x.leases + {sid}, x.members + {Member(agent, sid)}, x.born + {sid})
  }

  /** Delete record and lease together. */
  function Drop(x: Sessions, sid: Sid): Sessions {
    x.(records := x.records - {sid}, leases := x.leases - {sid})
  }

  function Leave(x: Sessions, agent: Agent, sid: Sid): Sessions {
    x.(members := x.members - {Member(agent, sid)})
  }

  function Refresh(x: Sessions, sid: Sid): Sessions {
    if sid !in x.records || x.records[sid] == "" then x
    else x.(leases := x.leases + {sid}, members := x.members + {Member(x.records[sid], sid)})
  }

  predicate Expired(x: Sessions, agent: Agent, sid: Sid) {
    Member(agent, sid) in x.members && sid !in x.leases
  }

  function Prune(x: Sessions, agent: Agent): Sessions {
    x.(members := (set m | m in x.members && !(m.agent == agent && m.sid !in x.leases)),
       records := map sid | sid in x.records && !Expired(x, agent, sid) :: x.records[sid])
  }

  // ----------------------------------------------------- everything else

  /** A registry value, as far as adoption looks into it. */
  datatype Entry = Entry(name: string, pid: Option<int>, metadata: Option<Metadata>)
  datatype Metadata = Metadata(protocol: Option<string>, tools: Option<string>, others: string)

  datatype Mapping = Mapping(agent: Agent, directory: string)
  datatype Audit = Audit(event: string, target: Agent, source: Agent)

  /** The other keys: any client may change them between two steps. */
  datatype Rest = Rest(
    registry: map<Agent, Entry>, pending: map<Agent, Entry>, restore: map<Agent, Entry>,
    bindings: set<Agent>, heartbeats: set<Agent>, outbound: set<Agent>,
    claims: map<Agent, nat>, queues: map<Agent, seq<string>>,
    mappings: map<string, Mapping>, audit: seq<Audit>)

  /** A close() that has read the session's agent, or has deleted the record too. */
  datatype Closing = Closing(sid: Sid, agent: Agent, deleted: bool)

  datatype State = State(sess: Sessions, closers: map<Client, Closing>, wrappers: map<Agent, Token>, rest: Rest)

  function ClaimsOf(r: Rest, agent: Agent): nat {
    if agent in r.claims then r.claims[agent] else 0
  }

  function QueueOf(r: Rest, agent: Agent): seq<string> {
    if agent in r.queues then r.queues[agent] else []
  }

  predicate HasLiveMember(x: Sessions, agent: Agent) {
    exists m :: m in x.members && m.agent == agent && m.sid in x.leases
  }

  /** The guard both adoption paths share. */
  predicate Occupied(s: State, agent: Agent) {
    || agent in s.rest.bindings
    || agent in s.rest.heartbeats
    || agent in s.wrappers
    || HasLiveMember(s.sess, agent)
    || ClaimsOf(s.rest, agent) > 0
  }

  // ------------------------------------------------------------- adoption

  function Merge(target: Entry, source: Entry): Entry {
    var kept := if target.metadata.Some? then target.metadata.value else Metadata(None, None, "");
    target.(pid := source.pid,
            metadata := Some(if source.metadata.Some?
                             then kept.(protocol := source.metadata.value.protocol, tools := source.metadata.value.tools)
                             else kept))
  }

  predicate SoleMember(x: Sessions, agent: Agent, sid: Sid) {
    Member(agent, sid) in x.members && forall m :: m in x.members && m.agent == agent ==> m.sid == sid
  }

  /** The adoption script's answer: 1, or the first guard that refuses; 0 is the caller's own check. */
  function AdoptCode(s: State, sid: Sid, source: Agent, target: Agent, key: string, mapping: Mapping): int {
    if source == target then 0
    else if Lookup(s.rest.mappings, key) != Some(mapping) then -1
    else if source !in s.rest.registry || target !in s.rest.registry then -2
    else if Lookup(s.sess.records, sid) != Some(source) || sid !in s.sess.leases then -3
    else if !SoleMember(s.sess, source, sid) then -4
    else if Occupied(s, target) then -5
    else if QueueOf(s.rest, source) != [] || ClaimsOf(s.rest, source) > 0 || source in s.rest.outbound || source in s.wrappers then -6
    else 1
  }

  function Adopt(s: State, sid: Sid, source: Agent, target: Agent, key: string, mapping: Mapping): State {
    if AdoptCode(s, sid, source, target, key, mapping) != 1 then s else
    var merged := Merge(s.rest.registry[target], s.rest.registry[source]);
    s.(sess := s.sess.(records := s.sess.records[sid := target],
                       members := s.sess.members - {Member(source, sid)} + {Member(target, sid)}),
       rest := s.rest.(registry := s.rest.registry[target := merged] - {source},
                       pending := s.rest.pending - {target}, restore := s.rest.restore - {target},
                       heartbeats := s.rest.heartbeats - {source},
                       audit := s.rest.audit + [Audit("runtime_continuity", target, source)]))
  }

  /** An operator's plan: the values it was made on. */
  datatype Plan = Plan(key: string, expected: Option<Mapping>, target: Agent, targetEntry: Entry,
                       source: Option<Agent>, sourceEntry: Option<Entry>, directory: string)

  function ContinuityCode(s: State, p: Plan): int {
    if Lookup(s.rest.mappings, p.key) != p.expected then -1
    else if Lookup(s.rest.registry, p.target) != Some(p.targetEntry) then -2
    else if p.source.Some? && Lookup(s.rest.registry, p.source.value) != p.sourceEntry then -3
    else if Occupied(s, p.target) then -4
    else if p.source.Some? && p.source.value != p.target &&
            (Occupied(s, p.source.value) || QueueOf(s.rest, p.source.value) != [] || p.source.value in s.rest.outbound) then -5
    else 1
  }

  function Continue(s: State, p: Plan): State {
    if ContinuityCode(s, p) != 1 then s else
    s.(rest := s.rest.(mappings := s.rest.mappings[p.key := Mapping(p.target, p.directory)],
                       audit := s.rest.audit + [Audit("operator_continuity", p.target, if p.source.Some? then p.source.value else "")]))
  }

  datatype Applied = Idempotent | Mismatch | Refused | Done

  /** applyContinuity: reads first, then the script; seen is the state the reads met. */
  function ApplyContinuity(seen: State, now: State, p: Plan): (State, Applied) {
    var target := Lookup(seen.rest.registry, p.target);
    if Lookup(seen.rest.mappings, p.key) == Some(Mapping(p.target, p.directory)) && target == Some(p.targetEntry) then (now, Idempotent)
    else if Lookup(seen.rest.mappings, p.key) != p.expected || target != Some(p.targetEntry) ||
            (p.source.Some? && Lookup(seen.rest.registry, p.source.value) != p.sourceEntry) then (now, Mismatch)
    else if ContinuityCode(now, p) != 1 then (now, Refused)
    else (Continue(now, p), Done)
  }

  // ---------------------------------------------------- retirement and wrappers

  /** Registry entry, claim state, mailbox and heartbeat of a name. */
  function Erase(r: Rest, agent: Agent): Rest {
    r.(registry := r.registry - {agent}, claims := r.claims - {agent}, queues := r.queues - {agent},
       heartbeats := r.heartbeats - {agent})
  }

  function Unregister(s: State, agent: Agent, sid: Option<Sid>): State {
    s.(sess := if sid.Some? then Leave(Drop(s.sess, sid.value), agent, sid.value) else s.sess,
       rest := Erase(s.rest, agent))
  }

  function ExclusiveCode(s: State, agent: Agent, sid: Sid, token: Token): int {
    if Lookup(s.wrappers, agent) != Some(token) then 0
    else if Lookup(s.sess.records, sid) != Some(agent) then -1
    else if SoleMember(s.sess, agent, sid) then 1 else 2
  }

  function ExclusiveUnregister(s: State, agent: Agent, sid: Sid, token: Token): State {
    var code := ExclusiveCode(s, agent, sid, token);
    if code <= 0 then s else
    var closed := s.(sess := Leave(Drop(s.sess, sid), agent, sid));
    if code == 2 then closed else closed.(rest := Erase(s.rest, agent))
  }

  function AcquireCode(s: State, agent: Agent, requireFresh: bool): int {
    if agent in s.wrappers then 0
    else if requireFresh && agent in s.rest.registry then -1
    else if HasLiveMember(s.sess, agent) || agent in s.rest.heartbeats then -2
    else 1
  }

  // ------------------------------------------------------------------- steps

  datatype Step =
    | CreateStep(sid: Sid, agent: Agent)
    | RollbackCreate(sid: Sid, agent: Agent)
    | RefreshStep(sid: Sid)
    | PruneStep(agent: Agent)
    | LeaseExpires(sid: Sid)
    | CloseRead(c: Client, sid: Sid)
    | CloseDelete(c: Client)
    | CloseLeave(c: Client)
    | AdoptStep(sid: Sid, source: Agent, target: Agent, key: string, mapping: Mapping)
    | ContinueStep(plan: Plan)
    | UnregisterStep(agent: Agent, session: Option<Sid>)
    | ExclusiveStep(agent: Agent, sid: Sid, token: Token)
    | Acquire(agent: Agent, token: Token, requireFresh: bool)
    | Release(agent: Agent, token: Token)
    | Elsewhere(rest: Rest)

  function Next(s: State, step: Step): State {
    match step
    case CreateStep(sid, agent) => s.(sess := Create(s.sess, sid, agent))
    case RollbackCreate(sid, agent) => s.(sess := Leave(Drop(s.sess, sid), agent, sid))
    case RefreshStep(sid) => s.(sess := Refresh(s.sess, sid))
    case PruneStep(agent) => s.(sess := Prune(s.sess, agent))
    case LeaseExpires(sid) => s.(sess := s.sess.(leases := s.sess.leases - {sid}))
    case CloseRead(c, sid) =>
      if sid in s.sess.records && s.sess.records[sid] != ""
      then s.(closers := s.closers[c := Closing(sid, s.sess.records[sid], false)]) else s
    case CloseDelete(c) =>
      if c in s.closers && !s.closers[c].deleted
      then s.(sess := Drop(s.sess, s.closers[c].sid), closers := s.closers[c := s.closers[c].(deleted := true)]) else s
    case CloseLeave(c) =>
      if c in s.closers && s.closers[c].deleted
      then s.(sess := Leave(s.sess, s.closers[c].agent, s.closers[c].sid), closers := s.closers - {c}) else s
    case AdoptStep(sid, source, target, key, mapping) => Adopt(s, sid, source, target, key, mapping)
    case ContinueStep(p) => Continue(s, p)
    case UnregisterStep(agent, session) => Unregister(s, agent, session)
    case ExclusiveStep(agent, sid, token) => ExclusiveUnregister(s, agent, sid, token)
    case Acquire(agent, token, requireFresh) =>
      if AcquireCode(s, agent, requireFresh) == 1 then s.(wrappers := s.wrappers[agent := token]) else s
    case Release(agent, token) =>
      if Lookup(s.wrappers, agent) == Some(token) then s.(wrappers := s.wrappers - {agent}) else s
    case Elsewhere(rest) => s.(rest := rest)
  }

  function Run(s: State, steps: seq<Step>): State
    decreases |steps|
  {
    if steps == [] then s else Run(Next(s, steps[0]), steps[1..])
  }

  const NoSessions := Sessions(map[], {}, {}, {})

  function Start(rest: Rest): State {
    State(NoSessions, map[], map[], rest)
  }

  // -------------------------------------------------------------- invariant

  /** A leased session has a record; a recorded session belongs to its record's agent, and nowhere else. */
  ghost predicate SessionsOk(x: Sessions) {
    && (forall sid :: sid in x.leases ==> sid in x.records)
    && (forall sid :: sid in x.records ==> Member(x.records[sid], sid) in x.members)
    && (forall m :: m in x.members && m.sid in x.records ==> x.records[m.sid] == m.agent)
    && (forall sid :: sid in x.records ==> sid in x.born)
    && (forall m :: m in x.members ==> m.sid in x.born)
  }

  ghost predicate ClosersOk(s: State) {
    forall c :: c in s.closers ==>
      s.closers[c].sid in s.sess.born && (s.closers[c].deleted ==> s.closers[c].sid !in s.sess.records)
  }

  ghost predicate Inv(s: State) {
    SessionsOk(s.sess) && ClosersOk(s)
  }

  /** Dead sessions stay dead: nothing but creation makes a record. */
  ghost predicate NoneRevived(x: Sessions, y: Sessions) {
    x.born <= y.born && forall sid :: sid in x.born && sid !in x.records ==> sid !in y.records
  }

  lemma CreateOk(x: Sessions, sid: Sid, agent: Agent)
    requires SessionsOk(x)
    ensures SessionsOk(Create(x, sid, agent)) && NoneRevived(x, Create(x, sid, agent))
  {
  }

  lemma DropOk(x: Sessions, sid: Sid)
    requires SessionsOk(x)
    ensures SessionsOk(Drop(x, sid)) && NoneRevived(x, Drop(x, sid))
  {
  }

  lemma LeaveOk(x: Sessions, agent: Agent, sid: Sid)
    requires SessionsOk(x) && sid !in x.records
    ensures SessionsOk(Leave(x, agent, sid)) && NoneRevived(x, Leave(x, agent, sid))
  {
  }

  lemma RefreshOk(x: Sessions, sid: Sid)
    requires SessionsOk(x)
    ensures SessionsOk(Refresh(x, sid)) && NoneRevived(x, Refresh(x, sid))
  {
  }

  lemma PruneOk(x: Sessions, agent: Agent)
    requires SessionsOk(x)
    ensures SessionsOk(Prune(x, agent)) && NoneRevived(x, Prune(x, agent))
  {
  }

  lemma AdoptOk(s: State, sid: Sid, source: Agent, target: Agent, key: string, mapping: Mapping)
    requires SessionsOk(s.sess)
    ensures var y := Adopt(s, sid, source, target, key, mapping).sess;
            SessionsOk(y) && NoneRevived(s.sess, y) && y.records.Keys == s.sess.records.Keys
  {
    hide Merge, Occupied;
  }

  /** Closing, dropping and leaving in one go. */
  lemma DropAndLeaveOk(x: Sessions, agent: Agent, sid: Sid)
    requires SessionsOk(x)
    ensures var y := Leave(Drop(x, sid), agent, sid); SessionsOk(y) && NoneRevived(x, y)
  {
    DropOk(x, sid);
    LeaveOk(Drop(x, sid), agent, sid);
  }

  /** Steps on sessions alone carry the closers along. */
  lemma ClosersFollow(s: State, s': State)
    requires ClosersOk(s) && NoneRevived(s.sess, s'.sess) && s'.closers == s.closers
    ensures ClosersOk(s')
  {
  }

  lemma StepKeepsSessions(s: State, step: Step)
    requires Inv(s)
    ensures SessionsOk(Next(s, step).sess) && NoneRevived(s.sess, Next(s, step).sess)
  {
    match step
    case CreateStep(sid, agent) => CreateOk(s.sess, sid, agent);
    case RollbackCreate(sid, agent) => DropAndLeaveOk(s.sess, agent, sid);
    case RefreshStep(sid) => RefreshOk(s.sess, sid);
    case PruneStep(agent) => PruneOk(s.sess, agent);
    case LeaseExpires(sid) =>
    case CloseRead(c, sid) =>
    case CloseDelete(c) => if c in s.closers { DropOk(s.sess, s.closers[c].sid); }
    case CloseLeave(c) =>
      if c in s.closers && s.closers[c].deleted { LeaveOk(s.sess, s.closers[c].agent, s.closers[c].sid); }
    case AdoptStep(sid, source, target, key, mapping) =>
      AdoptOk(s, sid, source, target, key, mapping);
    case ContinueStep(p) =>
    case UnregisterStep(agent, session) =>
      if session.Some? { DropAndLeaveOk(s.sess, agent, session.value); }
    case ExclusiveStep(agent, sid, token) => DropAndLeaveOk(s.sess, agent, sid);
    case Acquire(agent, token, requireFresh) =>
    case Release(agent, token) =>
    case Elsewhere(rest) =>
  }

  lemma StepKeepsInv(s: State, step: Step)
    requires Inv(s)
    ensures Inv(Next(s, step)) && NoneRevived(s.sess, Next(s, step).sess)
  {
    StepKeepsSessions(s, step);
    hide SessionsOk, AdoptCode, ContinuityCode, ExclusiveCode, Merge, Prune;
    if !step.CloseRead? && !step.CloseDelete? && !step.CloseLeave? {
      ClosersFollow(s, Next(s, step));
    } else if step.CloseRead? {
      RecordedWasBorn(s.sess);
    }
  }

  lemma RecordedWasBorn(x: Sessions)
    requires SessionsOk(x)
    ensures forall sid :: sid in x.records ==> sid in x.born
  {
  }

  lemma {:induction false} RunKeepsInv(s: State, steps: seq<Step>)
    requires Inv(s)
    ensures Inv(Run(s, steps)) && NoneRevived(s.sess, Run(s, steps).sess)
    decreases |steps|
  {
    hide Inv, Next;
    if steps != [] {
      StepKeepsInv(s, steps[0]);
      RunKeepsInv(Next(s, steps[0]), steps[1..]);
    }
  }

  // ------------------------------------------------------------ sessions

  /** In every run, a live lease means a record, and a record means membership of exactly its agent. */
  lemma LeasedSessionBelongsToItsAgent(rest: Rest, steps: seq<Step>, sid: Sid)
    ensures var x := Run(Start(rest), steps).sess;
            && (sid in x.leases ==> sid in x.records)
            && (sid in x.records ==> forall agent :: Member(agent, sid) in x.members <==> agent == x.records[sid])
  {
    RunKeepsInv(Start(rest), steps);
  }

  /** A session that has lost its record never gets one, or a lease, again. */
  lemma DeadSessionNeverReturns(s: State, steps: seq<Step>, sid: Sid)
    requires Inv(s) && sid in s.sess.born && sid !in s.sess.records
    ensures var x := Run(s, steps).sess; sid !in x.records && sid !in x.leases
  {
    RunKeepsInv(s, steps);
  }

  /** Pruning removes exactly the agent's leaseless members, and touches nobody else's session. */
  lemma PruneRemovesExactlyTheExpired(x: Sessions, agent: Agent, sid: Sid)
    requires SessionsOk(x)
    ensures var y := Prune(x, agent);
            && (sid in y.records <==> sid in x.records && !Expired(x, agent, sid))
            && (sid in x.records && sid !in y.records ==> x.records[sid] == agent && sid !in x.leases)
            && (forall other :: other != agent ==> (Member(other, sid) in y.members <==> Member(other, sid) in x.members))
            && (Member(agent, sid) in y.members <==> Member(agent, sid) in x.members && sid in x.leases)
  {
  }

  /**
   * A close that read agent a and deletes a session whose record meanwhile
   * says b leaves its membership of b behind, exactly if b is not a; the next
   * prune of b clears it.
   */
  lemma CloseLeavesStaleMemberIff(s: State, c: Client, sid: Sid, a: Agent)
    requires Inv(s) && c in s.closers && s.closers[c] == Closing(sid, a, false) && sid in s.sess.records
    ensures var s' := Next(Next(s, CloseDelete(c)), CloseLeave(c));
            && sid !in s'.sess.records && sid !in s'.sess.leases
            && ((exists agent :: Member(agent, sid) in s'.sess.members) <==> s.sess.records[sid] != a)
            && (forall agent :: Member(agent, sid) !in Prune(s'.sess, s.sess.records[sid]).members)
  {
    var s' := Next(Next(s, CloseDelete(c)), CloseLeave(c));
    var b := s.sess.records[sid];
    assert s'.sess.members == s.sess.members - {Member(a, sid)};
    assert Member(b, sid) in s.sess.members;
    if b != a { assert Member(b, sid) in s'.sess.members; }
  }

  // ------------------------------------------------------------ adoption

  /** The lease signal is exact: some live session is recorded for the agent. */
  lemma LiveLeaseSignalIsExact(x: Sessions, agent: Agent)
    requires SessionsOk(x)
    ensures HasLiveMember(x, agent) <==> exists sid :: sid in x.leases && sid in x.records && x.records[sid] == agent
  {
    if HasLiveMember(x, agent) {
      var m :| m in x.members && m.agent == agent && m.sid in x.leases;
      assert x.records[m.sid] == agent;
    }
    if sid :| sid in x.leases && sid in x.records && x.records[sid] == agent {
      assert Member(agent, sid) in x.members;
    }
  }

  /** Nothing waits for the agent, and nothing of it is outstanding. */
  predicate Quiet(s: State, agent: Agent) {
    QueueOf(s.rest, agent) == [] && ClaimsOf(s.rest, agent) == 0 && agent !in s.rest.outbound && agent !in s.wrappers
  }

  /**
   * An adoption happens exactly if the mapping still stands, both agents are
   * registered, the adopter's live session is the quiet source's only one, and
   * no live session is the target's, which shows no other sign of life;
   * otherwise it changes nothing at all.
   */
  lemma AdoptionHappensIff(s: State, sid: Sid, source: Agent, target: Agent, key: string, mapping: Mapping)
    requires Inv(s)
    ensures Adopt(s, sid, source, target, key, mapping) != s <==>
              && source != target && Lookup(s.rest.mappings, key) == Some(mapping)
              && source in s.rest.registry && target in s.rest.registry
              && sid in s.sess.leases && s.sess.records[sid] == source
              && (forall m :: m in s.sess.members && m.agent == source ==> m.sid == sid) && Quiet(s, source)
              && (forall other :: other in s.sess.leases ==> s.sess.records[other] != target)
              && ClaimsOf(s.rest, target) == 0 && target !in s.rest.bindings + s.rest.heartbeats + s.wrappers.Keys
  {
    LiveLeaseSignalIsExact(s.sess, target);
    if AdoptCode(s, sid, source, target, key, mapping) == 1 {
      assert Adopt(s, sid, source, target, key, mapping).sess.records[sid] == target != s.sess.records[sid];
    }
    if sid in s.sess.leases && s.sess.records[sid] == source { assert Member(source, sid) in s.sess.members; }
    hide Adopt, HasLiveMember;
  }

  /** The target stays itself, but for the process and what that process can do. */
  ghost predicate MergedFrom(merged: Entry, target: Entry, source: Entry) {
    && merged.name == target.name && merged.pid == source.pid && merged.metadata.Some?
    && merged.metadata.value.others == (if target.metadata.Some? then target.metadata.value.others else "")
    && (source.metadata.Some? ==>
          merged.metadata.value.protocol == source.metadata.value.protocol &&
          merged.metadata.value.tools == source.metadata.value.tools)
    && (source.metadata == None && target.metadata.Some? ==> merged.metadata == target.metadata)
  }

  /**
   * A successful adoption finds the target without any sign of life and the
   * source's only session its own; afterwards that session is the target's
   * only live one, the source has no session left, and no queue, claim count,
   * mapping or other agent's entry has changed.
   */
  lemma AdoptionTransfersExactlyTheIdentity(s: State, sid: Sid, source: Agent, target: Agent, key: string, mapping: Mapping)
    requires Inv(s) && AdoptCode(s, sid, source, target, key, mapping) == 1
    ensures var s' := Adopt(s, sid, source, target, key, mapping);
            && !Occupied(s, target) && Occupied(s', target)
            && (forall other :: other in s.sess.leases ==> s.sess.records[other] != target)
            && (forall other :: other in s'.sess.leases ==> (s'.sess.records[other] == target <==> other == sid))
            && (forall m :: m in s'.sess.members ==> m.agent != source)
            && s'.rest.queues == s.rest.queues && s'.rest.claims == s.rest.claims && s'.rest.mappings == s.rest.mappings
            && source !in s'.rest.registry && s'.rest.registry[target].pid == s.rest.registry[source].pid
            && MergedFrom(s'.rest.registry[target], s.rest.registry[target], s.rest.registry[source])
            && (forall other :: other != source && other != target ==> Lookup(s'.rest.registry, other) == Lookup(s.rest.registry, other))
            && s'.rest.pending == s.rest.pending - {target} && s'.rest.restore == s.rest.restore - {target}
            && s'.rest.heartbeats == s.rest.heartbeats - {source}
            && s'.rest.bindings == s.rest.bindings && s'.rest.outbound == s.rest.outbound && s'.wrappers == s.wrappers
            && s'.rest.audit == s.rest.audit + [Audit("runtime_continuity", target, source)]
  {
    AdoptOk(s, sid, source, target, key, mapping);
    var s' := Adopt(s, sid, source, target, key, mapping);
    LiveLeaseSignalIsExact(s.sess, target);
    assert Member(target, sid) in s'.sess.members && sid in s'.sess.leases;
  }

  /** Whoever holds a live session, or the wrapper claim, of a name keeps every other adopter out. */
  predicate Takes(s: State, step: Step, target: Agent) {
    match step
    case AdoptStep(sid, source, to, key, mapping) => to == target && AdoptCode(s, sid, source, to, key, mapping) == 1
    case ContinueStep(p) => p.target == target && ContinuityCode(s, p) == 1
    case Acquire(agent, _, requireFresh) => agent == target && AcquireCode(s, agent, requireFresh) == 1
    case _ => false
  }

  /** sid's lease lives throughout, and sid itself is not adopted onwards. */
  ghost predicate LivesThroughout(s: State, steps: seq<Step>, sid: Sid)
    decreases |steps|
  {
    && sid in s.sess.leases
    && (steps == [] || (!(steps[0].AdoptStep? && steps[0].sid == sid) && LivesThroughout(Next(s, steps[0]), steps[1..], sid)))
  }

  /** A live session keeps its agent until it is adopted. */
  lemma LiveSessionKeepsAgent(s: State, step: Step, sid: Sid)
    requires Inv(s) && sid in s.sess.leases && sid in Next(s, step).sess.leases && !(step.AdoptStep? && step.sid == sid)
    ensures Lookup(Next(s, step).sess.records, sid) == Lookup(s.sess.records, sid)
  {
    hide Merge, Occupied, ContinuityCode, SoleMember;
  }

  /**
   * In every run, from an adoption on, nobody else takes the target while the
   * adopter's lease lives, unless it is itself adopted onwards.
   */
  lemma {:induction false} AdopterExcludesOthers(s: State, steps: seq<Step>, sid: Sid, target: Agent, k: nat)
    requires Inv(s) && Lookup(s.sess.records, sid) == Some(target) && LivesThroughout(s, steps, sid) && k < |steps|
    ensures !Takes(Run(s, steps[..k]), steps[k], target)
    decreases k
  {
    if k == 0 {
      assert Run(s, steps[..0]) == s;
      LiveLeaseSignalIsExact(s.sess, target);
    } else {
      StepKeepsInv(s, steps[0]);
      assert sid in Next(s, steps[0]).sess.leases;
      LiveSessionKeepsAgent(s, steps[0], sid);
      hide Next, Inv;
      AdopterExcludesOthers(Next(s, steps[0]), steps[1..], sid, target, k - 1);
      assert steps[..k][0] == steps[0] && steps[..k][1..] == steps[1..][..k - 1];
    }
  }

  /** A wrapper claim keeps everyone out, and ends only by its own release. */
  lemma WrapperClaimExcludes(s: State, step: Step, agent: Agent, token: Token)
    requires Lookup(s.wrappers, agent) == Some(token)
    ensures !Takes(s, step, agent)
    ensures Lookup(Next(s, step).wrappers, agent) == Some(token) <==> step != Release(agent, token)
  {
    hide Prune, Merge, ContinuityCode, AdoptCode;
    if Takes(s, step, agent) { TakenWasFree(s, step, agent); }
  }

  lemma TakenWasFree(s: State, step: Step, agent: Agent)
    requires Takes(s, step, agent)
    ensures agent !in s.wrappers
  {
  }

  // ---------------------------------------------------- operator continuity

  /**
   * Continuity changes the mapping and the audit and nothing else, on an idle
   * target and a quiet source only; and applying the same plan again, with
   * nothing in between, changes nothing.
   */
  lemma ContinuityRedirectsOnly(seen: State, now: State, p: Plan)
    requires Inv(now)
    ensures var (s', answer) := ApplyContinuity(seen, now, p);
            && (answer != Done ==> s' == now)
            && (answer == Done ==>
                  && s' == now.(rest := now.rest.(mappings := s'.rest.mappings, audit := s'.rest.audit))
                  && s'.rest.mappings == now.rest.mappings[p.key := Mapping(p.target, p.directory)]
                  && |s'.rest.audit| == |now.rest.audit| + 1 && now.rest.audit <= s'.rest.audit
                  && s'.rest.audit[|now.rest.audit|].event == "operator_continuity"
                  && s'.rest.audit[|now.rest.audit|].target == p.target
                  && s'.rest.audit[|now.rest.audit|].source == (if p.source.Some? then p.source.value else "")
                  && !Occupied(now, p.target)
                  && (p.source.Some? && p.source.value != p.target ==>
                        !Occupied(now, p.source.value) && QueueOf(now.rest, p.source.value) == [])
                  && ApplyContinuity(s', s', p) == (s', Idempotent))
  {
  }

  /** Such a run exists from every state in which an adoption can succeed. */
  lemma AdoptionDuringCloseLeavesStaleMember(s: State, c: Client, sid: Sid, source: Agent, target: Agent, key: string, mapping: Mapping)
    requires AdoptCode(s, sid, source, target, key, mapping) == 1 && source != ""
    ensures var s1 := Next(Next(s, CloseRead(c, sid)), AdoptStep(sid, source, target, key, mapping));
            var s2 := Next(Next(s1, CloseDelete(c)), CloseLeave(c));
            sid !in s2.sess.records && Member(target, sid) in s2.sess.members
  {
    hide Merge, Occupied, HasLiveMember;
    var s0 := Next(s, CloseRead(c, sid));
    OccupiedIgnoresClosers(s, s0, target);
    assert s0 == s.(closers := s.closers[c := Closing(sid, source, false)]);
    var s1 := Adopt(s0, sid, source, target, key, mapping);
    assert s1 == Next(s0, AdoptStep(sid, source, target, key, mapping));
    assert s1.closers[c] == Closing(sid, source, false) && Member(target, sid) in s1.sess.members;
  }

  lemma OccupiedIgnoresClosers(s: State, s': State, agent: Agent)
    requires s'.sess == s.sess && s'.wrappers == s.wrappers && s'.rest == s.rest
    ensures Occupied(s', agent) == Occupied(s, agent)
  {
  }

  /**
   * A wrapper retires the whole name only as its claim's holder and its sole
   * member; otherwise it closes its own session at most. No other session is
   * touched either way.
   */
  lemma ExclusiveUnregisterSparesOthers(s: State, agent: Agent, sid: Sid, token: Token, other: Sid)
    requires Inv(s) && other != sid
    ensures var s' := ExclusiveUnregister(s, agent, sid, token);
            && (other in s'.sess.records <==> other in s.sess.records)
            && (other in s'.sess.leases <==> other in s.sess.leases)
            && (forall a :: Member(a, other) in s'.sess.members <==> Member(a, other) in s.sess.members)
            && (s' != s ==> Lookup(s.wrappers, agent) == Some(token) && sid !in s'.sess.records)
            && (s'.rest != s.rest ==> forall m :: m in s.sess.members && m.agent == agent ==> m.sid == sid)
  {
    hide Erase;
  }

  // --------------------------------------------- when the other scripts act

  /** No sign of life: the signals of the occupancy guard, live sessions by their records. */
  ghost predicate Idle(s: State, agent: Agent) {
    && agent !in s.rest.bindings + s.rest.heartbeats + s.wrappers.Keys && ClaimsOf(s.rest, agent) == 0
    && forall sid :: sid in s.sess.leases ==> Lookup(s.sess.records, sid) != Some(agent)
  }

  /**
   * A plan is applied exactly if mapping, target and source are still what it
   * was made on, both are idle, and nothing waits for or is under way from the
   * source; a plan that leaves the source where it is asks that of nobody else.
   */
  lemma ContinuityHappensIff(s: State, p: Plan)
    requires Inv(s)
    ensures ContinuityCode(s, p) == 1 <==>
              && Lookup(s.rest.mappings, p.key) == p.expected && Lookup(s.rest.registry, p.target) == Some(p.targetEntry)
              && (p.source.Some? ==> Lookup(s.rest.registry, p.source.value) == p.sourceEntry)
              && Idle(s, p.target)
              && (p.source.Some? && p.source.value != p.target ==>
                    Idle(s, p.source.value) && QueueOf(s.rest, p.source.value) == [] && p.source.value !in s.rest.outbound)
    ensures ContinuityCode(s, p) != 1 ==> Continue(s, p) == s
  {
    LiveLeaseSignalIsExact(s.sess, p.target);
    if p.source.Some? { LiveLeaseSignalIsExact(s.sess, p.source.value); }
    hide HasLiveMember, Inv;
  }

  /** How a plan fares between its reads and its script; done at once only if it was applied before and nothing moved. */
  lemma ContinuityAnswers(seen: State, now: State, p: Plan)
    ensures var answer := ApplyContinuity(seen, now, p).1;
            var current := Lookup(seen.rest.mappings, p.key) == p.expected && Lookup(seen.rest.registry, p.target) == Some(p.targetEntry) &&
                         (p.source.Some? ==> Lookup(seen.rest.registry, p.source.value) == p.sourceEntry);
            var before := Lookup(seen.rest.mappings, p.key) == Some(Mapping(p.target, p.directory)) &&
                          Lookup(seen.rest.registry, p.target) == Some(p.targetEntry);
            && (answer == Idempotent <==> before)
            && (answer == Mismatch <==> !before && !current)
            && (answer == Done <==> !before && current && ContinuityCode(now, p) == 1)
            && (answer == Refused <==> !before && current && ContinuityCode(now, p) != 1)
  {
    hide ContinuityCode;
  }

  /** A wrapper gets the claim exactly if nobody has it, no live session or heartbeat shows, and, if it must be current, the name is not registered. */
  lemma AcquireSucceedsIff(s: State, agent: Agent, token: Token, requireFresh: bool)
    requires Inv(s)
    ensures var s' := Next(s, Acquire(agent, token, requireFresh));
            var may := agent !in s.wrappers && (requireFresh ==> agent !in s.rest.registry) && agent !in s.rest.heartbeats &&
                       forall sid :: sid in s.sess.leases ==> s.sess.records[sid] != agent;
            && (AcquireCode(s, agent, requireFresh) == 1 <==> may)
            && (may ==> s' == s.(wrappers := s.wrappers[agent := token]))
            && (!may ==> s' == s)
            && (AcquireCode(s, agent, requireFresh) == 0 <==> agent in s.wrappers)
            && (AcquireCode(s, agent, requireFresh) == -1 <==> agent !in s.wrappers && requireFresh && agent in s.rest.registry)
  {
    LiveLeaseSignalIsExact(s.sess, agent);
    hide HasLiveMember, Inv;
  }

  /**
   * A wrapper retires the name exactly as the claim's holder whose session is
   * its agent's only one; as holder with others there it closes that session
   * only; otherwise nothing happens.
   */
  lemma ExclusiveUnregisterIff(s: State, agent: Agent, sid: Sid, token: Token)
    requires Inv(s)
    ensures var s' := ExclusiveUnregister(s, agent, sid, token);
            var holds := Lookup(s.wrappers, agent) == Some(token) && Lookup(s.sess.records, sid) == Some(agent);
            var alone := forall m :: m in s.sess.members && m.agent == agent ==> m.sid == sid;
            && (!holds ==> s' == s)
            && (holds ==> sid !in s'.sess.records && sid !in s'.sess.leases && forall a :: Member(a, sid) !in s'.sess.members)
            && (holds && !alone ==> s'.rest == s.rest)
            && (holds && alone ==> Retired(s.rest, s'.rest, agent))
            && s'.wrappers == s.wrappers
  {
    assert sid in s.sess.records ==> Member(s.sess.records[sid], sid) in s.sess.members;
  }

  /** Entry, claims, mailbox and heartbeat of the name are gone, and nothing else. */
  ghost predicate Retired(r: Rest, r': Rest, agent: Agent) {
    && agent !in r'.registry && agent !in r'.heartbeats && ClaimsOf(r', agent) == 0 && QueueOf(r', agent) == []
    && (forall other :: other != agent ==>
          && Lookup(r'.registry, other) == Lookup(r.registry, other) && (other in r'.heartbeats <==> other in r.heartbeats)
          && ClaimsOf(r', other) == ClaimsOf(r, other) && QueueOf(r', other) == QueueOf(r, other))
    && r' == r.(registry := r'.registry, claims := r'.claims, queues := r'.queues, heartbeats := r'.heartbeats)
  }

  /** Unregistration retires the name, and closes the caller's session of it. */
  lemma UnregisterRetires(s: State, agent: Agent, sid: Option<Sid>)
    ensures var s' := Unregister(s, agent, sid);
            && Retired(s.rest, s'.rest, agent) && s'.wrappers == s.wrappers && s'.closers == s.closers
            && (sid == None ==> s'.sess == s.sess)
            && (sid.Some? ==> sid.value !in s'.sess.records && sid.value !in s'.sess.leases && Member(agent, sid.value) !in s'.sess.members)
            && (forall other :: Some(other) != sid ==>
                  && Lookup(s'.sess.records, other) == Lookup(s.sess.records, other) && (other in s'.sess.leases <==> other in s.sess.leases)
                  && forall a :: Member(a, other) in s'.sess.members <==> Member(a, other) in s.sess.members)
  {
  }

  /** Refreshing makes exactly a recorded session live, as a member of its agent; creating makes a new one so. Both leave all others alone. */
  lemma RefreshAndCreateMakeLive(x: Sessions, sid: Sid, agent: Agent, other: Sid)
    requires SessionsOk(x) && other != sid
    ensures var y, z := Refresh(x, sid), Create(x, sid, agent);
            && (sid in y.leases <==> sid in x.leases || (sid in x.records && x.records[sid] != ""))
            && y.records == x.records && y.members == x.members && y.born == x.born
            && (sid !in x.born ==> sid in z.leases && Lookup(z.records, sid) == Some(agent) && Member(agent, sid) in z.members)
            && (sid in x.born ==> z == x)
            && (forall w :: w in {y, z} ==>
                  && Lookup(w.records, other) == Lookup(x.records, other) && (other in w.leases <==> other in x.leases)
                  && forall a :: Member(a, other) in w.members <==> Member(a, other) in x.members)
  {
    if sid in x.records { assert Member(x.records[sid], sid) in x.members; }
  }

  // ----------------------------------------------------- the store's own steps

  /** Pruned but for the members still to do. */
  ghost function Partly(x: Sessions, agent: Agent, todo: set<Member>): Sessions {
    x.(members := (set m | m in x.members && (m in todo || !(m.agent == agent && m.sid !in x.leases))),
       records := map sid | sid in x.records && (Member(agent, sid) in todo || !Expired(x, agent, sid)) :: x.records[sid])
  }

  lemma PartlyAtStart(x: Sessions, agent: Agent)
    ensures Partly(x, agent, x.members) == x
  {
    assert Partly(x, agent, x.members).members == x.members;
    assert Partly(x, agent, x.members).records == x.records;
  }

  lemma PartlyAtEnd(x: Sessions, agent: Agent)
    ensures Partly(x, agent, {}) == Prune(x, agent)
  {
    assert Partly(x, agent, {}).members == Prune(x, agent).members;
    assert Partly(x, agent, {}).records == Prune(x, agent).records;
  }

  lemma PartlyNext(x: Sessions, agent: Agent, todo: set<Member>, m: Member)
    requires m in todo && todo <= x.members
    ensures var y := Partly(x, agent, todo);
            && Partly(x, agent, todo - {m}) ==
               (if m.agent == agent && m.sid !in x.leases
                then y.(members := y.members - {m}, records := y.records - {m.sid}) else y)
            && todo - {m} <= Partly(x, agent, todo - {m}).members && m in y.members
  {
    var y, z := Partly(x, agent, todo), Partly(x, agent, todo - {m});
    if m.agent == agent && m.sid !in x.leases {
      assert m == Member(agent, m.sid);
      assert z.members == y.members - {m};
      assert z.records == y.records - {m.sid};
    } else {
      assert z.members == y.members;
      assert z.records == y.records;
    }
  }

  class SessionStore {
    var records: map<Sid, Agent>
    var leases: set<Sid>
    var members: set<Member>
    var born: set<Sid>
    /** The session whose lease the timer refreshes. */
    var refreshing: Option<Sid>

    constructor ()
      ensures View() == NoSessions && refreshing == None
    {
      records, leases, members, born, refreshing := map[], {}, {}, {}, None;
    }

    function View(): Sessions
      reads this
    {
      Sessions(records, leases, members, born)
    }

    method RefreshLease(sid: Sid) returns (ok: bool)
      requires SessionsOk(View())
      modifies this`leases, this`members
      ensures View() == Refresh(old(View()), sid) && SessionsOk(View())
      ensures ok <==> sid in records && records[sid] != ""
    {
      RefreshOk(View(), sid);
      if sid !in records || records[sid] == "" { return false; }
      leases := leases + {sid};
      members := members + {Member(records[sid], sid)};
      return true;
    }

    method PruneExpired(agent: Agent) returns (pruned: nat)
      requires SessionsOk(View())
      modifies this`records, this`members
      ensures View() == Prune(old(View()), agent) && SessionsOk(View())
      ensures pruned == |old(members)| - |members|
    {
      PruneOk(View(), agent);
      ghost var before := View();
      var todo := members;
      pruned := 0;
      PartlyAtStart(before, agent);
      while todo != {}
        invariant todo <= before.members && todo <= members
        invariant View() == Partly(before, agent, todo)
        invariant pruned == |before.members| - |members|
        decreases |todo|
      {
        var m :| m in todo;
        PartlyNext(before, agent, todo, m);
        hide Partly;
        if m.agent == agent && m.sid !in leases {
          members := members - {m};
          records := records - {m.sid};
          pruned := pruned + 1;
        }
        todo := todo - {m};
      }
      PartlyAtEnd(before, agent);
    }

    /** Record, lease and membership in one transaction. */
    method AddSession(sid: Sid, agent: Agent)
      requires SessionsOk(View())
      modifies this`records, this`leases, this`members, this`born
      ensures View() == Create(old(View()), sid, agent) && SessionsOk(View())
    {
      CreateOk(View(), sid, agent);
      if sid in born { return; }
      records, leases := records[sid := agent], leases + {sid};
      members, born := members + {Member(agent, sid)}, born + {sid};
    }

    method CreateSession(sid: Sid, agent: Agent)
      requires SessionsOk(View()) && sid !in born
      modifies this`records, this`leases, this`members, this`born
      ensures View() == Create(Prune(old(View()), agent), sid, agent) && SessionsOk(View())
      ensures sid in leases && records[sid] == agent
    {
      var pruned := PruneExpired(agent);
      AddSession(sid, agent);
    }

    /** DEL of record and lease. */
    method DeleteSession(sid: Sid)
      requires SessionsOk(View())
      modifies this`records, this`leases
      ensures View() == Drop(old(View()), sid) && SessionsOk(View())
    {
      DropOk(View(), sid);
      records, leases := records - {sid}, leases - {sid};
    }

    /** SREM from the agent's set. */
    method LeaveAgent(agent: Agent, sid: Sid)
      requires SessionsOk(View()) && sid !in records
      modifies this`members
      ensures View() == Leave(old(View()), agent, sid) && SessionsOk(View())
    {
      LeaveOk(View(), agent, sid);
      members := members - {Member(agent, sid)};
    }

    /** closeSession, undisturbed; it stops the timer only if that refreshes this very session. */
    method CloseSession(sid: Sid) returns (agent: Option<Agent>)
      requires SessionsOk(View())
      modifies this`records, this`leases, this`members, this`refreshing
      ensures refreshing == if old(refreshing) == Some(sid) then None else old(refreshing)
      ensures SessionsOk(View())
      ensures agent == if sid in old(records) && old(records[sid]) != "" then Some(old(records[sid])) else None
      ensures agent.Some? ==>
                View() == Leave(Drop(old(View()), sid), agent.value, sid) &&
                sid !in leases && forall a :: Member(a, sid) !in members
      ensures agent == None ==> View() == old(View())
    {
      if refreshing == Some(sid) { refreshing := None; }
      if sid !in records || records[sid] == "" { return None; }
      agent := Some(records[sid]);
      DeleteSession(sid);
      LeaveAgent(agent.value, sid);
    }
  }

  class RedisClient {
    var agentName: Option<Agent>
    var sessionId: Option<Sid>
    var keys: State

    constructor (keys: State)
      ensures agentName == None && sessionId == None && this.keys == keys
    {
      agentName, sessionId, this.keys := None, None, keys;
    }

    /** False: refused with an exception. A success is followed by a heartbeat under the new name. */
    method AdoptIdentity(source: Agent, target: Agent, key: string, mapping: Mapping) returns (ok: bool)
      requires Inv(keys)
      modifies this
      ensures Inv(keys) && sessionId == old(sessionId)
      ensures ok <==> old(sessionId).Some? && old(agentName) == Some(source) &&
                      AdoptCode(old(keys), old(sessionId).value, source, target, key, mapping) == 1
      ensures !ok ==> agentName == old(agentName) && keys == old(keys)
      ensures ok ==>
                var after := Adopt(old(keys), sessionId.value, source, target, key, mapping);
                && agentName == Some(target)
                && keys == after.(rest := after.rest.(heartbeats := after.rest.heartbeats + {target}))
    {
      if sessionId == None || agentName != Some(source) || source == target { return false; }
      if AdoptCode(keys, sessionId.value, source, target, key, mapping) != 1 { return false; }
      AdoptOk(keys, sessionId.value, source, target, key, mapping);
      StepKeepsInv(keys, AdoptStep(sessionId.value, source, target, key, mapping));
      keys := Adopt(keys, sessionId.value, source, target, key, mapping);
      agentName := Some(target);
      keys := keys.(rest := keys.rest.(heartbeats := keys.rest.heartbeats + {target}));
      return true;
    }
  }
}
