/**
 * Any number of registrations and renames at once, each call to Redis a step
 * of its own, among everything else that happens to sessions and to the
 * registry (src/mcp-server/redis-client.ts:204-323 with
 * src/core/session-store.ts:134-207 and 283-302). Whether a rename's transfer
 * is reported complete is a choice here; Mailboxes says what transfers do.
 */
module RenameRaces {
  import opened Options
  import opened Rename
  import R = Registry
  import I = Identity

  type Id = R.AttemptId

  datatype Phase =
    | Pruning | Creating | Writing | Cleaning | Transferring
    | NewRead | NewDelete | NewLeave | Undoing
    | OldRead | OldDelete | OldLeave | OldEntry
    | Publishing | Ended(end: End)

  /** One register() call; former is the identity it renames, if it has one. */
  datatype Job = Job(
    name: string, sid: I.Sid, provisional: R.Value, completed: R.Value,
    former: Option<I.Member>, moved: bool, f: Faults, phase: Phase)

  /** touched: the sessions that somebody else has adopted, or has set out to close. */
  datatype State = State(reg: R.World, ident: I.State, jobs: map<Id, Job>, touched: set<I.Sid>)

  /** merged: the value an adoption stores for its target. */
  datatype Event =
    | Begin(id: Id, job: Job)
    | Call(id: Id)
    | Elsewhere(step: I.Step, merged: R.Value)
    | Published(name: string, value: R.Value)
    | Retired(name: string)

  const Empty := R.World(R.Hashes(map[], map[], map[]), map[], map[], map[], {})

  function Start(rest: I.Rest): State {
    State(Empty, I.Start(rest), map[], {})
  }

  /** Session ids are fresh, the target of an adoption has a name, and a close in progress is its caller's own. */
  predicate Enabled(s: State, e: Event) {
    match e
    case Begin(id, j) =>
      && id !in s.jobs && id !in s.ident.closers && j.phase == Pruning
      && j.provisional.Provisional? && j.completed.Completed?
      && (j.former.Some? ==> j.former.value.agent != j.name)
      && j.sid !in s.ident.sess.born && j.sid !in s.touched && (forall k :: k in s.jobs ==> s.jobs[k].sid != j.sid)
    case Call(id) => id in s.jobs && !s.jobs[id].phase.Ended?
    case Elsewhere(step, merged) =>
      && merged.Completed?
      && (step.AdoptStep? ==> step.target != "")
      && (step.CreateStep? ==> forall k :: k in s.jobs ==> s.jobs[k].sid != step.sid)
      && (step.CloseRead? || step.CloseDelete? || step.CloseLeave? ==> step.c !in s.jobs)
    case Published(_, value) => value.Completed?
    case Retired(_) => true
  }

  // ------------------------------------------------- what each event does

  /** The next phase of a job. */
  function After(s: State, j: Job): Phase {
    match j.phase
    case Pruning => if Heard(j.f.prune) then Creating else Ended(FailedBefore)
    case Creating => if Heard(j.f.create) then Writing else Ended(FailedBefore)
    case Writing => if !Heard(j.f.write) then Cleaning else if j.former.Some? then Transferring else Publishing
    case Cleaning => Ended(FailedBefore)
    case Transferring => if j.moved then OldRead else NewRead
    case NewRead => if Heard(j.f.closeRead) && Lookup(s.ident.sess.records, j.sid) !in {None, Some("")} then NewDelete else Undoing
    case NewDelete => if Heard(j.f.closeDelete) then NewLeave else Undoing
    case NewLeave => Undoing
    case Undoing => Ended(FailedBefore)
    case OldRead =>
      if j.former.Some? && Heard(j.f.oldRead) && Lookup(s.ident.sess.records, j.former.value.sid) !in {None, Some("")}
      then OldDelete else OldEntry
    case OldDelete => if Heard(j.f.oldDelete) then OldLeave else OldEntry
    case OldLeave => OldEntry
    case OldEntry => Publishing
    case Publishing => Ended(if Heard(j.f.publish) && j.name != "" then Renamed else FailedAfter)
    case Ended(_) => j.phase
  }

  function CallSteps(id: Id, j: Job): Option<I.Step> {
    match j.phase
    case Pruning => if Acts(j.f.prune) then Some(I.PruneStep(j.name)) else None
    case Creating => if Acts(j.f.create) then Some(I.CreateStep(j.sid, j.name)) else None
    case Cleaning => if Acts(j.f.cleanup) then Some(I.RollbackCreate(j.sid, j.name)) else None
    case NewRead => if Heard(j.f.closeRead) then Some(I.CloseRead(id, j.sid)) else None
    case NewDelete => if Acts(j.f.closeDelete) then Some(I.CloseDelete(id)) else None
    case NewLeave => if Acts(j.f.closeLeave) then Some(I.CloseLeave(id)) else None
    case OldRead => if j.former.Some? && Heard(j.f.oldRead) then Some(I.CloseRead(id, j.former.value.sid)) else None
    case OldDelete => if Acts(j.f.oldDelete) then Some(I.CloseDelete(id)) else None
    case OldLeave => if Acts(j.f.oldLeave) then Some(I.CloseLeave(id)) else None
    case _ => None
  }

  /** An attempt that will neither be undone nor published any more is abandoned. */
  function CallEvents(id: Id, j: Job): seq<R.Event> {
    match j.phase
    case Writing =>
      var write := R.Write(id, R.Attempt(j.name, j.provisional));
      if j.f.write == Failed then [] else if j.f.write == ReplyLost then [write, R.Abandon(id)] else [write]
    case Undoing => [if Acts(j.f.undo) then R.Undo(id) else R.Abandon(id)]
    case OldEntry => if j.former.Some? && Acts(j.f.oldEntry) then [R.Drop(j.former.value.agent)] else []
    case Publishing => [if Acts(j.f.publish) then R.Complete(j.name, j.completed, Some(id)) else R.Abandon(id)]
    case _ => []
  }

  /** What a step on sessions does to the registry as well. */
  function StepEvents(x: I.State, step: I.Step, merged: R.Value): seq<R.Event> {
    match step
    case AdoptStep(sid, source, target, key, mapping) =>
      if I.AdoptCode(x, sid, source, target, key, mapping) == 1
      then [R.Complete(target, merged, None), R.Drop(source)] else []
    case UnregisterStep(agent, _) => [R.Drop(agent)]
    case ExclusiveStep(agent, sid, token) => if I.ExclusiveCode(x, agent, sid, token) == 1 then [R.Drop(agent)] else []
    case _ => []
  }

  function RegistryEvents(s: State, e: Event): seq<R.Event> {
    match e
    case Begin(_, _) => []
    case Call(id) => if id in s.jobs then CallEvents(id, s.jobs[id]) else []
    case Elsewhere(step, merged) => StepEvents(s.ident, step, merged)
    case Published(n, v) => [R.Complete(n, v, None)]
    case Retired(n) => [R.Drop(n)]
  }

  function IdentityStep(s: State, e: Event): Option<I.Step> {
    match e
    case Call(id) => if id in s.jobs then CallSteps(id, s.jobs[id]) else None
    case Elsewhere(step, _) => Some(step)
    case _ => None
  }

  /** The sessions that the event closes, begins to close or adopts on behalf of another than their own job. */
  function Touches(s: State, e: Event): set<I.Sid> {
    match e
    case Call(id) =>
      if id in s.jobs && s.jobs[id].phase == OldRead && s.jobs[id].former.Some? && Heard(s.jobs[id].f.oldRead)
      then {s.jobs[id].former.value.sid} else {}
    case Elsewhere(RollbackCreate(sid, _), _) => {sid}
    case Elsewhere(CloseRead(_, sid), _) => {sid}
    case Elsewhere(AdoptStep(sid, _, _, _, _), _) => {sid}
    case Elsewhere(UnregisterStep(_, session), _) => if session.Some? then {session.value} else {}
    case Elsewhere(ExclusiveStep(_, sid, _), _) => {sid}
    case _ => {}
  }

  function NextJobs(s: State, e: Event): map<Id, Job> {
    match e
    case Begin(id, j) => s.jobs[id := j]
    case Call(id) => if id in s.jobs then s.jobs[id := s.jobs[id].(phase := After(s, s.jobs[id]))] else s.jobs
    case _ => s.jobs
  }

  function Follow(w: R.World, es: seq<R.Event>): R.World {
    if R.ValidRun(w, es) then R.Run(w, es) else w
  }

  function Next(s: State, e: Event): State {
    if !Enabled(s, e) then s else
    State(Follow(s.reg, RegistryEvents(s, e)),
          if IdentityStep(s, e).Some? then I.Next(s.ident, IdentityStep(s, e).value) else s.ident,
          NextJobs(s, e), s.touched + Touches(s, e))
  }

  function Run(s: State, es: seq<Event>): State
    decreases |es|
  {
    if es == [] then s else Run(Next(s, es[0]), es[1..])
  }

  // ------------------------------------------------------------ the registry

  /** The attempt has been written, and it is not settled yet. */
  predicate Mid(p: Phase) {
    !(p.Pruning? || p.Creating? || p.Writing? || p.Cleaning? || p.Ended?)
  }

  /** What has been heard, by the phase a job is in. */
  predicate Consistent(j: Job) {
    && j.provisional.Provisional? && j.completed.Completed?
    && (j.phase.Creating? || j.phase.Writing? || j.phase.Cleaning? || Mid(j.phase) ==> Heard(j.f.prune))
    && (j.phase.Writing? || j.phase.Cleaning? || Mid(j.phase) ==> Heard(j.f.create))
    && (j.phase.Cleaning? ==> !Heard(j.f.write))
    && (Mid(j.phase) ==> Heard(j.f.write))
    && (Mid(j.phase) && !j.phase.Publishing? ==> j.former.Some?)
    && (j.phase.NewRead? || j.phase.NewDelete? || j.phase.NewLeave? || j.phase.Undoing? ==> !j.moved)
    && (Mid(j.phase) && !j.phase.Transferring? && j.moved == false && j.former.Some? ==>
          j.phase.NewRead? || j.phase.NewDelete? || j.phase.NewLeave? || j.phase.Undoing?)
    && (j.phase.NewDelete? || j.phase.NewLeave? ==> Heard(j.f.closeRead))
    && (j.phase.NewLeave? ==> Heard(j.f.closeDelete))
  }

  /** The job ends without undoing or publishing what it wrote. */
  predicate Strands(j: Job) {
    && Heard(j.f.prune) && Heard(j.f.create)
    && (j.f.write == ReplyLost ||
        (Heard(j.f.write) && if j.former.Some? && !j.moved then !Acts(j.f.undo) else !Acts(j.f.publish)))
  }

  ghost predicate RegJobOk(w: R.World, k: Id, j: Job) {
    && Consistent(j)
    && (j.phase.Pruning? || j.phase.Creating? || j.phase.Writing? ==> k !in w.started)
    && (k in w.inFlight <==> Mid(j.phase))
    && (k in w.inFlight ==> w.inFlight[k] == R.Attempt(j.name, j.provisional))
    && (k in w.abandoned ==>
          w.abandoned[k] == R.Attempt(j.name, j.provisional) && Strands(j) && (j.phase.Cleaning? || j.phase.Ended?))
  }

  ghost predicate RegInv(s: State) {
    && R.Inv(s.reg)
    && (forall k :: k in s.reg.started ==> k in s.jobs)
    && (forall k :: k in s.jobs ==> RegJobOk(s.reg, k, s.jobs[k]))
  }

  lemma RunOfOne(w: R.World, e: R.Event)
    requires R.Enabled(w, e)
    ensures R.ValidRun(w, [e]) && R.Run(w, [e]) == R.Step(w, e)
  {
    assert [e][1..] == [];
    assert R.ValidRun(R.Step(w, e), []);
  }

  lemma RunOfTwo(w: R.World, e: R.Event, e': R.Event)
    requires R.Enabled(w, e) && R.Enabled(R.Step(w, e), e')
    ensures R.ValidRun(w, [e, e']) && R.Run(w, [e, e']) == R.Step(R.Step(w, e), e')
  {
    assert [e, e'][1..] == [e'];
    RunOfOne(R.Step(w, e), e');
  }

  /** Events that belong to no attempt leave all attempts alone. */
  lemma UnownedEvents(w: R.World, es: seq<R.Event>)
    requires |es| <= 2
    requires forall i :: 0 <= i < |es| ==> es[i].Drop? || (es[i].Complete? && es[i].owner == None && es[i].value.Completed?)
    ensures R.ValidRun(w, es)
    ensures var v := R.Run(w, es); v.inFlight == w.inFlight && v.abandoned == w.abandoned && v.started == w.started
  {
    if |es| == 0 {
    } else if |es| == 1 {
      assert es == [es[0]];
      RunOfOne(w, es[0]);
    } else {
      assert es == [es[0], es[1]];
      RunOfTwo(w, es[0], es[1]);
    }
  }

  lemma StepOnAttempts(w: R.World, e: R.Event)
    requires R.Enabled(w, e)
    ensures var v := R.Step(w, e);
            && v.inFlight == R.NextInFlight(w.inFlight, e)
            && v.started == (if e.Write? then w.started + {e.id} else w.started)
            && v.abandoned == (if e.Abandon? then w.abandoned[e.id := w.inFlight[e.id]] else w.abandoned)
  {
    hide R.WriteProvisional, R.UndoWrite, R.Publish, R.Retire, R.NextInFlight;
  }

  ghost predicate OnlyOwn(w: R.World, v: R.World, id: Id) {
    && v.started <= w.started + {id}
    && (forall k :: k != id ==>
          && (k in v.started <==> k in w.started)
          && Lookup(v.inFlight, k) == Lookup(w.inFlight, k)
          && Lookup(v.abandoned, k) == Lookup(w.abandoned, k))
  }

  lemma AfterIsConsistent(s: State, j: Job)
    requires Consistent(j)
    ensures Consistent(j.(phase := After(s, j)))
    ensures j.phase.Undoing? && !Acts(j.f.undo) ==> Strands(j)
    ensures j.phase.Publishing? && !Acts(j.f.publish) ==> Strands(j)
    ensures j.phase.Writing? && j.f.write == ReplyLost ==> Strands(j)
  {
  }

  lemma StrandsStays(j: Job, p: Phase)
    ensures Strands(j.(phase := p)) == Strands(j)
  {
  }

  /** The write, as its caller fares with it. */
  lemma WriteCall(s: State, id: Id)
    requires RegInv(s) && id in s.jobs && s.jobs[id].phase.Writing?
    ensures R.ValidRun(s.reg, CallEvents(id, s.jobs[id]))
    ensures var w := R.Run(s.reg, CallEvents(id, s.jobs[id]));
            RegJobOk(w, id, s.jobs[id].(phase := After(s, s.jobs[id]))) && OnlyOwn(s.reg, w, id)
  {
    var j, w := s.jobs[id], s.reg;
    assert RegJobOk(w, id, j);
    assert id !in w.inFlight && id !in w.abandoned;
    AfterIsConsistent(s, j);
    StrandsStays(j, After(s, j));
    var write := R.Write(id, R.Attempt(j.name, j.provisional));
    assert j.provisional.Provisional? && (Mid(After(s, j)) <==> Heard(j.f.write)) && (Heard(j.f.write) || After(s, j).Cleaning?);
    assert CallEvents(id, j) == if j.f.write == Failed then [] else if j.f.write == ReplyLost then [write, R.Abandon(id)] else [write];
    hide R.Step, R.Inv, Consistent, Strands, After, Mid, CallEvents, RegInv;
    if j.f.write != Failed {
      StepOnAttempts(w, write);
      if j.f.write == ReplyLost {
        StepOnAttempts(R.Step(w, write), R.Abandon(id));
        RunOfTwo(w, write, R.Abandon(id));
      } else {
        RunOfOne(w, write);
      }
    }
  }

  lemma QuietCall(s: State, id: Id)
    requires RegInv(s) && id in s.jobs && !s.jobs[id].phase.Writing? && !s.jobs[id].phase.Ended?
    requires !s.jobs[id].phase.Undoing? && !s.jobs[id].phase.Publishing?
    ensures R.ValidRun(s.reg, CallEvents(id, s.jobs[id]))
    ensures var w := R.Run(s.reg, CallEvents(id, s.jobs[id]));
            RegJobOk(w, id, s.jobs[id].(phase := After(s, s.jobs[id]))) && OnlyOwn(s.reg, w, id)
  {
    var j, w := s.jobs[id], s.reg;
    assert RegJobOk(w, id, j);
    AfterIsConsistent(s, j);
    StrandsStays(j, After(s, j));
    hide R.Step, R.Inv, Consistent, Strands;
    if CallEvents(id, j) != [] {
      StepOnAttempts(w, R.Drop(j.former.value.agent));
      RunOfOne(w, R.Drop(j.former.value.agent));
    }
  }

  lemma SettlingCall(s: State, id: Id)
    requires RegInv(s) && id in s.jobs && (s.jobs[id].phase.Undoing? || s.jobs[id].phase.Publishing?)
    ensures R.ValidRun(s.reg, CallEvents(id, s.jobs[id]))
    ensures var w := R.Run(s.reg, CallEvents(id, s.jobs[id]));
            RegJobOk(w, id, s.jobs[id].(phase := After(s, s.jobs[id]))) && OnlyOwn(s.reg, w, id)
  {
    var j, w := s.jobs[id], s.reg;
    assert RegJobOk(w, id, j);
    AfterIsConsistent(s, j);
    StrandsStays(j, After(s, j));
    var e := CallEvents(id, j)[0];
    assert R.Enabled(w, e) && After(s, j).Ended? && CallEvents(id, j) == [e];
    hide R.Step, R.Inv, Consistent, Strands, After, RegInv;
    StepOnAttempts(w, e);
    RunOfOne(w, e);
  }

  lemma OthersStayOk(w: R.World, v: R.World, jobs: map<Id, Job>, id: Id)
    requires OnlyOwn(w, v, id) && (forall k :: k in jobs ==> RegJobOk(w, k, jobs[k]))
    ensures forall k :: k in jobs && k != id ==> RegJobOk(v, k, jobs[k])
  {
    hide Consistent, Strands;
    forall k | k in jobs && k != id ensures RegJobOk(v, k, jobs[k]) {
      assert RegJobOk(w, k, jobs[k]);
      assert Lookup(v.inFlight, k) == Lookup(w.inFlight, k) && Lookup(v.abandoned, k) == Lookup(w.abandoned, k);
    }
  }

  lemma UnownedStepEvents(s: State, e: Event)
    requires Enabled(s, e) && !e.Call?
    ensures var es := RegistryEvents(s, e);
            |es| <= 2 && forall i :: 0 <= i < |es| ==> es[i].Drop? || (es[i].Complete? && es[i].owner == None && es[i].value.Completed?)
  {
    hide I.AdoptCode, I.ExclusiveCode;
  }

  lemma StepKeepsRegInv(s: State, e: Event)
    requires RegInv(s)
    ensures RegInv(Next(s, e))
    ensures Enabled(s, e) ==> R.ValidRun(s.reg, RegistryEvents(s, e))
  {
    if !Enabled(s, e) { return; }
    var es := RegistryEvents(s, e);
    hide R.NameInv, Consistent, Strands, After, CallEvents, StepEvents, I.Next;
    if e.Call? {
      var p := s.jobs[e.id].phase;
      if p.Writing? { WriteCall(s, e.id); } else if p.Undoing? || p.Publishing? { SettlingCall(s, e.id); } else { QuietCall(s, e.id); }
      hide RegJobOk;
      OthersStayOk(s.reg, R.Run(s.reg, es), s.jobs, e.id);
    } else {
      UnownedStepEvents(s, e);
      UnownedEvents(s.reg, es);
      OthersStayOk(s.reg, R.Run(s.reg, es), s.jobs, 0);
      forall k | k in s.jobs ensures RegJobOk(R.Run(s.reg, es), k, s.jobs[k]) { assert RegJobOk(s.reg, k, s.jobs[k]); }
      if e.Begin? { BegunIsOk(s, e.id, e.job); }
      hide RegJobOk;
    }
    hide Enabled;
    R.RunKeepsInv(s.reg, es);
  }

  /** What somebody else's step on sessions does to the registry: an adoption moves the entry, an unregistration removes it. */
  lemma StepsReachTheRegistry(s: State, step: I.Step, merged: R.Value, n: string)
    requires Enabled(s, Elsewhere(step, merged))
    ensures var was, now := Lookup(s.reg.hashes.registry, n), Lookup(Next(s, Elsewhere(step, merged)).reg.hashes.registry, n);
            match step
            case AdoptStep(sid, source, target, key, mapping) =>
              if I.AdoptCode(s.ident, sid, source, target, key, mapping) != 1 then now == was
              else now == if n == source then None else if n == target then Some(merged) else was
            case UnregisterStep(agent, _) => now == if n == agent then None else was
            case ExclusiveStep(agent, sid, token) =>
              now == if n == agent && I.ExclusiveCode(s.ident, agent, sid, token) == 1 then None else was
            case _ => now == was
  {
    var e := Elsewhere(step, merged);
    var es := RegistryEvents(s, e);
    UnownedStepEvents(s, e);
    UnownedEvents(s.reg, es);
    if step.AdoptStep? && I.AdoptCode(s.ident, step.sid, step.source, step.target, step.key, step.mapping) == 1 {
      AdoptCodeNamesTwo(s.ident, step.sid, step.source, step.target, step.key, step.mapping);
    }
    hide I.AdoptCode, I.ExclusiveCode, I.Next, Enabled;
    if |es| == 1 {
      assert es == [es[0]];
      RunOfOne(s.reg, es[0]);
    } else if |es| == 2 {
      assert es == [es[0], es[1]];
      RunOfTwo(s.reg, es[0], es[1]);
    }
  }

  lemma AdoptCodeNamesTwo(x: I.State, sid: I.Sid, source: I.Agent, target: I.Agent, key: string, mapping: I.Mapping)
    requires I.AdoptCode(x, sid, source, target, key, mapping) == 1
    ensures source != target
  {
  }

  lemma BegunIsOk(s: State, id: Id, j: Job)
    requires RegInv(s) && Enabled(s, Begin(id, j))
    ensures RegJobOk(s.reg, id, j)
  {
    assert id !in s.reg.started;
  }

  lemma {:induction false} RunKeepsRegInv(s: State, es: seq<Event>)
    requires RegInv(s)
    ensures RegInv(Run(s, es))
    decreases |es|
  {
    hide RegInv, Next;
    if es != [] {
      StepKeepsRegInv(s, es[0]);
      RunKeepsRegInv(Next(s, es[0]), es[1..]);
    }
  }

  lemma StartsOk(rest: I.Rest)
    ensures RegInv(Start(rest))
  {
    forall n ensures R.NameInv(Empty, n) {}
  }

  /** The registration is under way, or it ended without settling what it wrote. */
  predicate MayShow(j: Job, n: string, v: R.Value) {
    j.name == n && j.provisional == v && (Mid(j.phase) || (Strands(j) && (j.phase.Cleaning? || j.phase.Ended?)))
  }

  /**
   * Over every run of any number of registrations and renames of any names,
   * among adoptions, unregistrations, publications and retirements: a name
   * shows its last completed value, or the provisional value of a registration
   * that is under way, or of one that lost the reply of its write, or could
   * not reach Redis with its undo or its publication. With none of those, it
   * shows exactly its last completed value, or nothing if there is none.
   */
  lemma EntryAmongOthers(rest: I.Rest, es: seq<Event>, n: string)
    ensures var s := Run(Start(rest), es);
            var entry := Lookup(s.reg.hashes.registry, n);
            && (entry == Lookup(s.reg.completed, n) || exists k :: k in s.jobs && entry.Some? && MayShow(s.jobs[k], n, entry.value))
            && ((forall k :: k in s.jobs && s.jobs[k].name == n ==> s.jobs[k].phase.Ended? && !Strands(s.jobs[k])) ==>
                  entry == Lookup(s.reg.completed, n))
  {
    StartsOk(rest);
    RunKeepsRegInv(Start(rest), es);
    var s := Run(Start(rest), es);
    var entry := Lookup(s.reg.hashes.registry, n);
    hide Run, Strands, Consistent;
    R.RegistryIsInFlightOrCompleted(s.reg, [], n);
    assert R.Run(s.reg, []) == s.reg;
    if entry != Lookup(s.reg.completed, n) {
      var v := s.reg.hashes.registry[n];
      if R.InFlight(s.reg, n, v) {
        var k :| k in s.reg.inFlight && s.reg.inFlight[k] == R.Attempt(n, v);
        assert RegJobOk(s.reg, k, s.jobs[k]) && MayShow(s.jobs[k], n, v);
      } else {
        var k :| k in s.reg.abandoned && s.reg.abandoned[k] == R.Attempt(n, v);
        assert RegJobOk(s.reg, k, s.jobs[k]) && MayShow(s.jobs[k], n, v);
      }
    }
  }

  // ---------------------------- a rolled-back rename might never have been

  /** What a run does to the registry, script by script. */
  function Trace(s: State, es: seq<Event>): seq<R.Event>
    decreases |es|
  {
    if es == [] then [] else (if Enabled(s, es[0]) then RegistryEvents(s, es[0]) else []) + Trace(Next(s, es[0]), es[1..])
  }

  lemma {:induction false} RunOfBoth(w: R.World, es: seq<R.Event>, fs: seq<R.Event>)
    requires R.ValidRun(w, es) && R.ValidRun(R.Run(w, es), fs)
    ensures R.ValidRun(w, es + fs) && R.Run(w, es + fs) == R.Run(R.Run(w, es), fs)
    decreases |es|
  {
    if es == [] {
      assert es + fs == fs;
    } else {
      assert (es + fs)[0] == es[0] && (es + fs)[1..] == es[1..] + fs;
      RunOfBoth(R.Step(w, es[0]), es[1..], fs);
    }
  }

  lemma {:induction false} TraceRuns(s: State, es: seq<Event>)
    requires RegInv(s)
    ensures R.ValidRun(s.reg, Trace(s, es)) && Run(s, es).reg == R.Run(s.reg, Trace(s, es))
    decreases |es|
  {
    if es != [] {
      StepKeepsRegInv(s, es[0]);
      var s' := Next(s, es[0]);
      TraceRuns(s', es[1..]);
      var here := if Enabled(s, es[0]) then RegistryEvents(s, es[0]) else [];
      assert R.ValidRun(s.reg, here) && s'.reg == R.Run(s.reg, here);
      hide RegInv, Enabled, RegistryEvents, Next;
      RunOfBoth(s.reg, here, Trace(s', es[1..]));
    }
  }

  predicate SameJob(j: Job, k: Job) {
    j == k.(phase := j.phase)
  }

  lemma {:induction false} JobsStay(s: State, es: seq<Event>, k: Id)
    requires k in s.jobs
    ensures k in Run(s, es).jobs && SameJob(Run(s, es).jobs[k], s.jobs[k])
    ensures s.jobs[k].phase.Ended? ==> Run(s, es).jobs[k].phase.Ended?
    decreases |es|
  {
    hide Follow, RegistryEvents, IdentityStep, Touches;
    if es != [] { JobsStay(Next(s, es[0]), es[1..], k); }
  }

  /** On its way from the transfer to the undo. */
  ghost predicate RollingBack(s: State, id: Id, a: R.Attempt) {
    && id in s.jobs && a == R.Attempt(s.jobs[id].name, s.jobs[id].provisional)
    && s.jobs[id].former.Some? && !s.jobs[id].moved && Mid(s.jobs[id].phase)
  }

  /** No other registration of the name writes the very same string. */
  ghost predicate Unlike(s: State, id: Id, a: R.Attempt) {
    forall k :: k in s.jobs && k != id ==> a != R.Attempt(s.jobs[k].name, s.jobs[k].provisional)
  }

  predicate Apart(e: R.Event, id: Id, a: R.Attempt) {
    R.Foreign(e, id, a) && (e.Complete? ==> e.owner != Some(id))
  }

  lemma EventApart(s: State, e: Event, id: Id, a: R.Attempt, r: R.Event)
    requires RegInv(s) && RollingBack(s, id, a) && Unlike(s, id, a) && Enabled(s, e)
    requires !(e.Call? && e.id == id && s.jobs[id].phase.Undoing?) && r in RegistryEvents(s, e)
    ensures Apart(r, id, a)
  {
    if e.Call? {
      assert RegJobOk(s.reg, id, s.jobs[id]);
      hide RegInv, Enabled, RegJobOk;
    } else {
      UnownedStepEvents(s, e);
    }
  }

  lemma {:induction false} TraceApart(s: State, es: seq<Event>, id: Id, a: R.Attempt)
    requires RegInv(s) && RollingBack(s, id, a)
    requires Unlike(Run(s, es), id, a) && id in Run(s, es).jobs && Run(s, es).jobs[id].phase.Undoing?
    ensures forall r :: r in Trace(s, es) ==> Apart(r, id, a)
    decreases |es|
  {
    if es != [] {
      var e, s' := es[0], Next(s, es[0]);
      forall k | k in s.jobs ensures k in Run(s, es).jobs && SameJob(Run(s, es).jobs[k], s.jobs[k]) { JobsStay(s, es, k); }
      assert Unlike(s, id, a);
      JobsStay(s', es[1..], id);
      StepKeepsRegInv(s, e);
      assert RollingBack(s', id, a) && !(Enabled(s, e) && e.Call? && e.id == id && s.jobs[id].phase.Undoing?) by {
        assert RegJobOk(s.reg, id, s.jobs[id]);
        hide RegInv, Unlike, Follow, RegistryEvents, IdentityStep, Touches;
      }
      TraceApart(s', es[1..], id, a);
      hide RegInv, RollingBack, Unlike, Apart, Next, Enabled;
      forall r | r in Trace(s, es) ensures Apart(r, id, a) {
        if Enabled(s, e) && r in RegistryEvents(s, e) { EventApart(s, e, id, a, r); }
      }
    }
  }

  /** A history that does not concern an attempt can do without it. */
  lemma {:induction false} RunsWithout(w: R.World, o: R.World, id: Id, a: R.Attempt, es: seq<R.Event>)
    requires R.ValidRun(w, es) && forall r :: r in es ==> Apart(r, id, a)
    requires w.started == o.started + {id} && w.inFlight.Keys == o.inFlight.Keys + {id}
    requires forall k :: k in o.inFlight && k != id ==> w.inFlight[k] == o.inFlight[k]
    ensures R.ValidRun(o, es)
    decreases |es|
  {
    if es != [] {
      var e := es[0];
      assert Apart(e, id, a);
      assert R.Enabled(o, e);
      StepOnAttempts(w, e);
      StepOnAttempts(o, e);
      hide R.Step;
      RunsWithout(R.Step(w, e), R.Step(o, e), id, a, es[1..]);
    }
  }

  /**
   * From the provisional write of a rename to its undo, whatever others do:
   * the registry ends as their scripts alone would have left it, or with the
   * last completed value where those leave an attempt of theirs on top.
   */
  lemma RolledBackRenameMightNeverHaveBeen(s: State, id: Id, es: seq<Event>)
    requires RegInv(s) && id in s.jobs && s.jobs[id].phase.Writing?
    requires var j := s.jobs[id]; j.f.write == Fine && j.former.Some? && !j.moved && Acts(j.f.undo)
    requires var s1 := Run(Next(s, Call(id)), es);
             id in s1.jobs && s1.jobs[id].phase.Undoing? && Unlike(s1, id, R.Attempt(s.jobs[id].name, s.jobs[id].provisional))
    ensures var j, s0 := s.jobs[id], Next(s, Call(id));
            && R.ValidRun(s.reg, Trace(s0, es))
            && R.Undone(Next(Run(s0, es), Call(id)).reg, R.Run(s.reg, Trace(s0, es)), R.Attempt(j.name, j.provisional))
  {
    var j, s0 := s.jobs[id], Next(s, Call(id));
    var a, trace := R.Attempt(j.name, j.provisional), Trace(s0, es);
    hide RegInv, Next, Run, Trace, Unlike, Apart, Mid, Strands, Consistent;
    hide R.Undone, R.Inv, R.Unresolved, R.ValidRun, R.Run, R.Step, R.Enabled, R.Foreign, After, CallEvents, CallSteps;
    WrittenThen(s, id);
    StepKeepsRegInv(s, Call(id));
    TraceRuns(s0, es);
    TraceApart(s0, es, id, a);
    Unclaimed(s, es, id, a);
    JobsStay(s0, es, id);
    RunKeepsRegInv(s0, es);
    UndoneThen(Run(s0, es), id);
    WithAndWithout(s.reg, id, a, trace);
  }

  lemma WithAndWithout(w: R.World, id: Id, a: R.Attempt, es: seq<R.Event>)
    requires R.Inv(w) && R.Enabled(w, R.Write(id, a)) && !R.Unresolved(w, a.name, a.value)
    requires R.ValidRun(R.Step(w, R.Write(id, a)), es) && forall r :: r in es ==> Apart(r, id, a)
    ensures R.ValidRun(w, es)
    ensures var during := R.Run(R.Step(w, R.Write(id, a)), es);
            id in during.inFlight && R.Undone(R.Step(during, R.Undo(id)), R.Run(w, es), a)
  {
    StepOnAttempts(w, R.Write(id, a));
    hide R.Step, R.Undone, Apart, R.Inv, R.Unresolved;
    RunsWithout(R.Step(w, R.Write(id, a)), w, id, a, es);
    ApartIsForeign(es, id, a);
    R.UndoneAttemptMightNeverHaveBeen(w, id, a, es);
  }

  lemma ApartIsForeign(es: seq<R.Event>, id: Id, a: R.Attempt)
    requires forall r :: r in es ==> Apart(r, id, a)
    ensures forall i :: 0 <= i < |es| ==> R.Foreign(es[i], id, a)
  {
    forall i | 0 <= i < |es| ensures R.Foreign(es[i], id, a) { assert Apart(es[i], id, a); }
  }

  lemma WrittenThen(s: State, id: Id)
    requires RegInv(s) && id in s.jobs && s.jobs[id].phase.Writing?
    requires var j := s.jobs[id]; j.f.write == Fine && j.former.Some? && !j.moved
    ensures var j, s0 := s.jobs[id], Next(s, Call(id));
            var a := R.Attempt(j.name, j.provisional);
            && R.Inv(s.reg) && R.Enabled(s.reg, R.Write(id, a)) && s0.reg == R.Step(s.reg, R.Write(id, a))
            && s0.reg.started == s.reg.started + {id} && s0.reg.inFlight == s.reg.inFlight[id := a] && id !in s.reg.inFlight
            && RollingBack(s0, id, a) && SameJob(s0.jobs[id], j)
  {
    var write := R.Write(id, R.Attempt(s.jobs[id].name, s.jobs[id].provisional));
    assert RegJobOk(s.reg, id, s.jobs[id]);
    assert R.Enabled(s.reg, write) && id !in s.reg.inFlight;
    RunOfOne(s.reg, write);
    StepOnAttempts(s.reg, write);
    hide R.Step, R.Inv, RegInv, RegJobOk;
  }

  lemma UndoneThen(s: State, id: Id)
    requires RegInv(s) && id in s.jobs && s.jobs[id].phase.Undoing? && Acts(s.jobs[id].f.undo)
    ensures R.Enabled(s.reg, R.Undo(id)) && Next(s, Call(id)).reg == R.Step(s.reg, R.Undo(id))
  {
    assert RegJobOk(s.reg, id, s.jobs[id]);
    RunOfOne(s.reg, R.Undo(id));
    hide R.Step, R.Inv, RegInv, RegJobOk;
  }

  lemma Unclaimed(s: State, es: seq<Event>, id: Id, a: R.Attempt)
    requires RegInv(s) && id in s.jobs && s.jobs[id].phase.Writing?
    requires Unlike(Run(Next(s, Call(id)), es), id, a)
    ensures !R.Unresolved(s.reg, a.name, a.value)
  {
    var s0 := Next(s, Call(id));
    assert RegJobOk(s.reg, id, s.jobs[id]);
    forall k | k in s.reg.inFlight || k in s.reg.abandoned
      ensures k in s.jobs && k != id && a != R.Attempt(s.jobs[k].name, s.jobs[k].provisional)
    {
      JobsStay(s0, es, k);
      assert k in s.reg.started && s0.jobs[k] == s.jobs[k];
    }
    forall k | k in s.reg.inFlight ensures s.reg.inFlight[k] != a { assert RegJobOk(s.reg, k, s.jobs[k]); }
    forall k | k in s.reg.abandoned ensures s.reg.abandoned[k] != a { assert RegJobOk(s.reg, k, s.jobs[k]); }
  }

  // ------------------------------------------------------------ the sessions

  /** Nobody but name has the session as a member. */
  ghost predicate Sole(x: I.Sessions, sid: I.Sid, name: string) {
    forall m :: m in x.members && m.sid == sid ==> m.agent == name
  }

  ghost predicate NoMember(x: I.Sessions, sid: I.Sid) {
    forall m :: m in x.members ==> m.sid != sid
  }

  ghost predicate Whole(x: I.Sessions, sid: I.Sid, name: string) {
    Sole(x, sid, name) && (sid !in x.records ==> NoMember(x, sid))
  }

  predicate Failing(p: Phase) {
    p.Undoing? || p == Ended(FailedBefore)
  }

  /** What is known of a job's own close. */
  ghost predicate CloserOk(x: I.State, touched: set<I.Sid>, id: Id, j: Job) {
    && (j.phase.NewDelete? ==> id in x.closers && x.closers[id].sid == j.sid && !x.closers[id].deleted)
    && (j.phase.NewLeave? ==> id in x.closers && x.closers[id].sid == j.sid && x.closers[id].deleted)
    && (j.phase.OldDelete? || j.phase.OldLeave? ==> id in x.closers && x.closers[id].sid in touched)
  }

  ghost predicate RecordOk(x: I.State, j: Job) {
    && (j.phase.Pruning? || j.phase.Creating? ==> j.sid !in x.sess.born)
    && (Failing(j.phase) ==> j.sid !in x.sess.records || SessionLeft(j.name, j.f))
    && (Lookup(x.sess.records, j.sid) == Some("") ==> j.name == "")
  }

  /** While nobody else meddles with the new session. */
  ghost predicate MembersOk(x: I.State, id: Id, j: Job) {
    if Failing(j.phase) then NoMember(x.sess, j.sid) || MembershipLeft(j.name, j.f)
    else if j.phase.Ended? then true
    else if j.phase.NewLeave? then id in x.closers && x.closers[id].agent == j.name && Sole(x.sess, j.sid, j.name)
    else Whole(x.sess, j.sid, j.name) && (j.phase.NewDelete? ==> id in x.closers && x.closers[id].agent == j.name)
  }

  ghost predicate SessionJobOk(x: I.State, touched: set<I.Sid>, id: Id, j: Job) {
    CloserOk(x, touched, id, j) && RecordOk(x, j) && (j.sid !in touched ==> MembersOk(x, id, j))
  }

  /** Somebody else's step that concerns the session in particular. */
  predicate Names(x: I.State, step: I.Step, sid: I.Sid) {
    match step
    case CreateStep(of, _) => of == sid
    case RollbackCreate(of, _) => of == sid
    case CloseRead(_, of) => of == sid
    case CloseDelete(c) => c in x.closers && x.closers[c].sid == sid
    case CloseLeave(c) => c in x.closers && x.closers[c].sid == sid
    case AdoptStep(of, _, _, _, _) => of == sid
    case UnregisterStep(_, session) => session == Some(sid)
    case ExclusiveStep(_, of, _) => of == sid
    case _ => false
  }

  /** Any other step keeps the session whole, or removes all of it. */
  lemma UnnamedStep(x: I.State, step: I.Step, sid: I.Sid, name: string)
    requires I.SessionsOk(x.sess) && !Names(x, step, sid)
    ensures var y := I.Next(x, step);
            && (Sole(x.sess, sid, name) ==> Sole(y.sess, sid, name))
            && (NoMember(x.sess, sid) ==> NoMember(y.sess, sid))
            && (Whole(x.sess, sid, name) ==> Whole(y.sess, sid, name))
  {
    hide I.Merge, I.AdoptCode, I.ContinuityCode, I.ExclusiveCode, I.AcquireCode, I.Erase;
  }

  lemma OnlyCreationAdds(x: I.State, step: I.Step, sid: I.Sid)
    requires !(step.CreateStep? && step.sid == sid) && (step.AdoptStep? ==> step.target != "")
    ensures var y := I.Next(x, step);
            && (sid in y.sess.records ==> sid in x.sess.records) && (sid in y.sess.born <==> sid in x.sess.born)
            && (Lookup(x.sess.records, sid) != Some("") ==> Lookup(y.sess.records, sid) != Some(""))
  {
    hide I.Merge, I.ContinuityCode, I.ExclusiveCode, I.AcquireCode, I.Erase, I.Occupied, I.SoleMember;
  }

  predicate Closes(step: I.Step, id: Id) {
    (step.CloseRead? || step.CloseDelete? || step.CloseLeave?) && step.c == id
  }

  lemma ClosersOfOthers(x: I.State, step: I.Step, id: Id)
    requires !Closes(step, id)
    ensures Lookup(I.Next(x, step).closers, id) == Lookup(x.closers, id)
  {
    hide I.AdoptCode, I.ContinuityCode, I.ExclusiveCode, I.AcquireCode, I.Prune;
  }

  /** Somebody else's step, on one job. */
  lemma OthersKeepJob(x: I.State, step: I.Step, touched: set<I.Sid>, more: set<I.Sid>, id: Id, j: Job)
    requires I.Inv(x) && SessionJobOk(x, touched, id, j) && touched <= more
    requires !Closes(step, id) && !(step.CreateStep? && step.sid == j.sid) && (step.AdoptStep? ==> step.target != "")
    requires j.sid !in more ==> !Names(x, step, j.sid)
    ensures SessionJobOk(I.Next(x, step), more, id, j)
  {
    OnlyCreationAdds(x, step, j.sid);
    ClosersOfOthers(x, step, id);
    if j.sid !in more { UnnamedStep(x, step, j.sid, j.name); }
    hide I.Next, Sole, NoMember, Names, SessionLeft, MembershipLeft;
  }

  /** What a call of job id makes of the sessions. */
  function AfterCall(x: I.State, id: Id, j: Job): I.State {
    if CallSteps(id, j).Some? then I.Next(x, CallSteps(id, j).value) else x
  }

  ghost predicate Ready(s: State, id: Id) {
    && id in s.jobs && I.Inv(s.ident) && Consistent(s.jobs[id])
    && SessionJobOk(s.ident, s.touched, id, s.jobs[id])
  }

  ghost predicate OwnOk(s: State, id: Id)
    requires id in s.jobs
  {
    var j := s.jobs[id];
    SessionJobOk(AfterCall(s.ident, id, j), s.touched + Touches(s, Call(id)), id, j.(phase := After(s, j)))
  }

  /** The job's own calls before it has anything to close. */
  lemma OwnCallOpens(s: State, id: Id)
    requires Ready(s, id)
    requires var p := s.jobs[id].phase; p.Pruning? || p.Creating? || p.Writing? || p.Cleaning?
    ensures OwnOk(s, id)
  {
    var j, x := s.jobs[id], s.ident;
    if j.phase.Pruning? {
      var step := I.PruneStep(j.name);
      OnlyCreationAdds(x, step, j.sid);
      UnnamedStep(x, step, j.sid, j.name);
    }
    hide I.Prune;
  }

  lemma OwnCallRollsBack(s: State, id: Id)
    requires Ready(s, id)
    requires var p := s.jobs[id].phase; p.NewRead? || p.NewDelete? || p.NewLeave? || p.Undoing?
    ensures OwnOk(s, id)
  {
    hide I.Prune;
    var j, x := s.jobs[id], s.ident;
    if j.phase.NewRead? && j.sid in x.sess.records && j.sid !in s.touched {
      assert I.Member(x.sess.records[j.sid], j.sid) in x.sess.members;
    }
  }

  lemma OwnCallMovesOn(s: State, id: Id)
    requires Ready(s, id) && CallSteps(id, s.jobs[id]) == None
    requires var p := s.jobs[id].phase;
             p.Transferring? || p.OldRead? || p.OldDelete? || p.OldLeave? || p.OldEntry? || p.Publishing?
    ensures OwnOk(s, id)
  {
    hide Whole, NoMember, SessionLeft, MembershipLeft, I.Inv;
  }

  lemma OwnCallRetires(s: State, id: Id)
    requires Ready(s, id) && CallSteps(id, s.jobs[id]).Some?
    requires var p := s.jobs[id].phase; p.OldRead? || p.OldDelete? || p.OldLeave?
    ensures OwnOk(s, id)
  {
    var j, x := s.jobs[id], s.ident;
    assert I.SessionsOk(x.sess);
    hide Whole, Sole, NoMember, I.Leave, I.Drop, Consistent, SessionLeft, MembershipLeft, I.Inv, I.SessionsOk;
    var step := CallSteps(id, j).value;
    OnlyCreationAdds(x, step, j.sid);
    if j.sid !in s.touched + Touches(s, Call(id)) { UnnamedStep(x, step, j.sid, j.name); }
  }

  ghost predicate SessionInv(s: State) {
    && I.Inv(s.ident)
    && (forall k :: k in s.jobs ==> Consistent(s.jobs[k]) && SessionJobOk(s.ident, s.touched, k, s.jobs[k]))
    && (forall k, l :: k in s.jobs && l in s.jobs && k != l ==> s.jobs[k].sid != s.jobs[l].sid)
    && (forall c :: c in s.ident.closers ==>
          s.ident.closers[c].sid in s.touched || (c in s.jobs && s.jobs[c].sid == s.ident.closers[c].sid))
  }

  /** Whoever's step it is, it concerns no untouched session but its own job's. */
  lemma UntouchedIsUnnamed(s: State, e: Event, sid: I.Sid)
    requires SessionInv(s) && Enabled(s, e) && IdentityStep(s, e).Some?
    requires sid !in s.touched + Touches(s, e) && (e.Call? ==> s.jobs[e.id].sid != sid)
    ensures Names(s.ident, IdentityStep(s, e).value, sid) ==> e.Elsewhere? && e.step.CreateStep? && e.step.sid == sid
  {
    hide I.Inv, SessionJobOk, Consistent, After;
  }

  lemma StepIsNotItsOwn(s: State, e: Event, k: Id)
    requires SessionInv(s) && Enabled(s, e) && IdentityStep(s, e).Some?
    requires k in s.jobs && (e.Call? ==> k != e.id)
    ensures var step := IdentityStep(s, e).value;
            !Closes(step, k) && !(step.CreateStep? && step.sid == s.jobs[k].sid) && (step.AdoptStep? ==> step.target != "")
  {
    hide I.Inv, SessionJobOk, Consistent, After;
  }

  lemma OtherJobKept(s: State, e: Event, k: Id)
    requires SessionInv(s) && Enabled(s, e) && IdentityStep(s, e).Some?
    requires k in s.jobs && (e.Call? ==> k != e.id)
    ensures SessionJobOk(I.Next(s.ident, IdentityStep(s, e).value), s.touched + Touches(s, e), k, s.jobs[k])
  {
    var step, j, more := IdentityStep(s, e).value, s.jobs[k], s.touched + Touches(s, e);
    assert e.Call? ==> s.jobs[e.id].sid != j.sid;
    assert I.Inv(s.ident) && SessionJobOk(s.ident, s.touched, k, j);
    StepIsNotItsOwn(s, e, k);
    hide I.Next, I.Inv, Names, Closes, SessionJobOk, Consistent, Enabled, Touches, IdentityStep;
    if j.sid !in more {
      UntouchedIsUnnamed(s, e, j.sid);
      SidIsOfElsewhere(s, e, j.sid, step);
    }
    hide SessionInv;
    OthersKeepJob(s.ident, step, s.touched, more, k, j);
  }

  lemma SidIsOfElsewhere(s: State, e: Event, sid: I.Sid, step: I.Step)
    requires IdentityStep(s, e) == Some(step)
    ensures e.Elsewhere? ==> e.step == step
  {
  }

  lemma ClosersStayKnown(s: State, e: Event, c: Id)
    requires SessionInv(s) && Enabled(s, e) && IdentityStep(s, e).Some?
    requires c in I.Next(s.ident, IdentityStep(s, e).value).closers
    ensures var sid := I.Next(s.ident, IdentityStep(s, e).value).closers[c].sid;
            sid in s.touched + Touches(s, e) || (c in s.jobs && s.jobs[c].sid == sid)
  {
    hide I.Inv, SessionJobOk, Consistent, After, I.AdoptCode, I.ContinuityCode, I.ExclusiveCode, I.AcquireCode, I.Merge;
    hide I.Prune, I.Drop, I.Leave, I.Create, I.Refresh, I.Erase;
  }

  lemma OwnJobKept(s: State, id: Id)
    requires SessionInv(s) && Enabled(s, Call(id))
    ensures OwnOk(s, id)
  {
    assert Ready(s, id);
    var p := s.jobs[id].phase;
    hide SessionInv, Ready, OwnOk;
    if p.Pruning? || p.Creating? || p.Writing? || p.Cleaning? {
      OwnCallOpens(s, id);
    } else if p.NewRead? || p.NewDelete? || p.NewLeave? || p.Undoing? {
      OwnCallRollsBack(s, id);
    } else if CallSteps(id, s.jobs[id]).Some? {
      OwnCallRetires(s, id);
    } else {
      OwnCallMovesOn(s, id);
    }
  }

  lemma BegunSessionOk(s: State, id: Id, j: Job)
    requires SessionInv(s) && Enabled(s, Begin(id, j))
    ensures Consistent(j) && SessionJobOk(s.ident, s.touched, id, j)
  {
    hide SessionLeft, MembershipLeft;
  }

  /** A step on sessions that somebody takes: what it makes of the others' jobs, and of the closes in progress. */
  lemma StepKeepsOthers(s: State, e: Event)
    requires SessionInv(s) && Enabled(s, e) && IdentityStep(s, e).Some?
    ensures var s' := Next(s, e);
            && I.Inv(s'.ident)
            && (forall k :: k in s.jobs && !(e.Call? && k == e.id) ==> SessionJobOk(s'.ident, s'.touched, k, s.jobs[k]))
            && (forall c :: c in s'.ident.closers ==>
                  s'.ident.closers[c].sid in s'.touched || (c in s.jobs && s.jobs[c].sid == s'.ident.closers[c].sid))
  {
    var s' := Next(s, e);
    hide Follow, RegistryEvents, NextJobs, Touches, I.Next, I.Inv, Consistent, SessionJobOk, After, Enabled, IdentityStep;
    I.StepKeepsInv(s.ident, IdentityStep(s, e).value);
    forall k | k in s.jobs && !(e.Call? && k == e.id) ensures SessionJobOk(s'.ident, s'.touched, k, s.jobs[k]) {
      OtherJobKept(s, e, k);
    }
    forall c | c in s'.ident.closers
      ensures s'.ident.closers[c].sid in s'.touched || (c in s.jobs && s.jobs[c].sid == s'.ident.closers[c].sid)
    {
      ClosersStayKnown(s, e, c);
    }
  }

  lemma CallKeepsSessionInv(s: State, id: Id)
    requires SessionInv(s) && Enabled(s, Call(id))
    ensures SessionInv(Next(s, Call(id)))
  {
    hide Follow, RegistryEvents, I.Next, I.Inv, Consistent, SessionJobOk, After, CallSteps, Touches;
    OwnJobKept(s, id);
    AfterIsConsistent(s, s.jobs[id]);
    if IdentityStep(s, Call(id)).Some? { StepKeepsOthers(s, Call(id)); } else { StillTouchesNothing(s, id); }
  }

  lemma StillTouchesNothing(s: State, id: Id)
    requires IdentityStep(s, Call(id)) == None
    ensures s.touched + Touches(s, Call(id)) == s.touched
  {
  }

  lemma StepKeepsSessionInv(s: State, e: Event)
    requires SessionInv(s)
    ensures SessionInv(Next(s, e))
  {
    var s' := Next(s, e);
    hide Follow, RegistryEvents, I.Next, I.Inv, Consistent, SessionJobOk, After;
    if !Enabled(s, e) {
    } else if e.Call? {
      CallKeepsSessionInv(s, e.id);
    } else if e.Elsewhere? {
      StepKeepsOthers(s, e);
    } else if e.Begin? {
      BegunSessionOk(s, e.id, e.job);
      assert s'.touched == s.touched && s'.ident == s.ident;
    } else {
      assert s'.touched == s.touched && s'.ident == s.ident;
    }
  }

  lemma {:induction false} RunKeepsSessionInv(s: State, es: seq<Event>)
    requires SessionInv(s)
    ensures SessionInv(Run(s, es))
    decreases |es|
  {
    hide SessionInv, Next;
    if es != [] {
      StepKeepsSessionInv(s, es[0]);
      RunKeepsSessionInv(Next(s, es[0]), es[1..]);
    }
  }

  /**
   * Over every run of any number of registrations and renames, among leases
   * that expire, prunes, closes and adoptions: a rename or registration that
   * has failed before its transfer leaves a record or a lease of its new
   * session only in the cases of SessionLeft, and a membership only in those
   * of MembershipLeft, or if somebody else adopted that session or set out to
   * close it.
   */
  lemma SessionAmongOthers(rest: I.Rest, es: seq<Event>, id: Id)
    requires var s := Run(Start(rest), es); id in s.jobs && s.jobs[id].phase == Ended(FailedBefore)
    ensures var s := Run(Start(rest), es);
            var j, x := s.jobs[id], s.ident.sess;
            && (j.sid in x.records || j.sid in x.leases ==> SessionLeft(j.name, j.f))
            && ((exists agent :: I.Member(agent, j.sid) in x.members) ==> MembershipLeft(j.name, j.f) || j.sid in s.touched)
  {
    RunKeepsSessionInv(Start(rest), es);
    var s := Run(Start(rest), es);
    hide Run;
    assert SessionJobOk(s.ident, s.touched, id, s.jobs[id]);
  }

  // ------------------------------------------- the identity that is renamed

  lemma LiveStep(x: I.State, step: I.Step, sid: I.Sid)
    requires I.SessionsOk(x.sess) && sid in x.sess.leases && step != I.LeaseExpires(sid)
    requires Names(x, step, sid) ==> step.CreateStep?
    ensures var y := I.Next(x, step);
            sid in y.sess.leases && Lookup(y.sess.records, sid) == Lookup(x.sess.records, sid)
  {
    hide I.Merge, I.AdoptCode, I.ContinuityCode, I.ExclusiveCode, I.AcquireCode, I.Erase;
  }

  predicate Expires(e: Event, sid: I.Sid) {
    e.Elsewhere? && e.step == I.LeaseExpires(sid)
  }

  /** No registration of this session is under way. */
  predicate Settled(s: State, sid: I.Sid) {
    forall k :: k in s.jobs && s.jobs[k].sid == sid ==> s.jobs[k].phase.Ended?
  }

  lemma LiveSessionStep(s: State, e: Event, sid: I.Sid)
    requires SessionInv(s) && sid in s.ident.sess.leases && !Expires(e, sid)
    requires sid !in Next(s, e).touched && Settled(s, sid)
    ensures var s' := Next(s, e);
            && sid in s'.ident.sess.leases && Lookup(s'.ident.sess.records, sid) == Lookup(s.ident.sess.records, sid)
            && Settled(s', sid)
  {
    assert I.SessionsOk(s.ident.sess) && sid in s.ident.sess.born;
    hide I.Inv, I.SessionsOk, SessionInv, I.Next, Names, Follow, RegistryEvents, After;
    if Enabled(s, e) && IdentityStep(s, e).Some? {
      UntouchedIsUnnamed(s, e, sid);
      LiveStep(s.ident, IdentityStep(s, e).value, sid);
    }
  }

  lemma {:induction false} TouchedGrows(s: State, es: seq<Event>)
    ensures s.touched <= Run(s, es).touched
    decreases |es|
  {
    if es != [] { TouchedGrows(Next(s, es[0]), es[1..]); }
  }

  /** A rename that is going to fail before its transfer touches no session but its own new one. */
  lemma FailingRenameTouchesNobody(s: State, id: Id)
    requires SessionInv(s) && id in s.jobs && !s.jobs[id].moved
    ensures Touches(s, Call(id)) == {}
  {
    assert Consistent(s.jobs[id]);
  }

  /**
   * Whatever registrations and renames begin, fail, are rolled back or
   * succeed meanwhile, a live session that is registered stays live and its
   * agent's, unless its lease expires or somebody closes or adopts that very
   * session: so the old identity outlives every failing rename of its own.
   */
  lemma {:induction false} LiveSessionAmongOthers(s: State, es: seq<Event>, sid: I.Sid)
    requires SessionInv(s) && sid in s.ident.sess.leases && Settled(s, sid)
    requires sid !in Run(s, es).touched && forall i :: 0 <= i < |es| ==> !Expires(es[i], sid)
    ensures var x := Run(s, es).ident.sess;
            sid in x.leases && Lookup(x.records, sid) == Lookup(s.ident.sess.records, sid)
    decreases |es|
  {
    if es != [] {
      TouchedGrows(Next(s, es[0]), es[1..]);
      StepKeepsSessionInv(s, es[0]);
      LiveSessionStep(s, es[0], sid);
      hide SessionInv, Next, Settled;
      LiveSessionAmongOthers(Next(s, es[0]), es[1..], sid);
    }
  }

  // ------------------------------- a rename that nobody interrupts is Register

  function CallsLeft(p: Phase): nat {
    match p
    case Pruning => 14
    case Creating => 13
    case Writing => 12
    case Transferring => 11
    case NewRead => 10
    case NewDelete => 9
    case NewLeave => 8
    case Undoing => 7
    case OldRead => 6
    case OldDelete => 5
    case OldLeave => 4
    case OldEntry => 3
    case Publishing => 2
    case Cleaning => 1
    case Ended(_) => 0
  }

  lemma CallsRunOut(s: State, id: Id)
    requires id in s.jobs && !s.jobs[id].phase.Ended?
    ensures var s' := Next(s, Call(id)); id in s'.jobs && CallsLeft(s'.jobs[id].phase) < CallsLeft(s.jobs[id].phase)
  {
    hide RegistryEvents, IdentityStep, Touches, Follow;
  }

  /** Job id's calls up to its end, with nothing in between. */
  ghost function Alone(s: State, id: Id): State
    requires id in s.jobs
    decreases CallsLeft(s.jobs[id].phase)
  {
    if s.jobs[id].phase.Ended? then s else
    CallsRunOut(s, id);
    Alone(Next(s, Call(id)), id)
  }

  /** What one call does to the hashes, to the sessions and to the job. */
  lemma CallEffects(s: State, id: Id)
    requires RegInv(s) && id in s.jobs && !s.jobs[id].phase.Ended?
    ensures RegInv(Next(s, Call(id)))
    ensures Next(s, Call(id)).jobs == s.jobs[id := s.jobs[id].(phase := After(s, s.jobs[id]))]
    ensures Next(s, Call(id)).ident == AfterCall(s.ident, id, s.jobs[id])
    ensures var j, h, h' := s.jobs[id], s.reg.hashes, Next(s, Call(id)).reg.hashes;
            h' == HashesAfter(h, j)
  {
    StepKeepsRegInv(s, Call(id));
    assert RegJobOk(s.reg, id, s.jobs[id]);
    CallHashes(s, id);
    hide RegInv, R.ValidRun, R.Run, CallEvents, R.WriteProvisional, R.UndoWrite, R.Retire, R.Publish, After, CallSteps;
  }

  /** t is where job id's next calls lead from s. */
  ghost predicate Leads(s: State, t: State, id: Id)
    requires id in s.jobs && id in t.jobs
  {
    RegInv(t) && Alone(s, id) == Alone(t, id)
  }

  /** The hashes after one call. */
  function HashesAfter(h: R.Hashes, j: Job): R.Hashes {
    if j.phase.Writing? && Acts(j.f.write) then R.WriteProvisional(h, j.name, j.provisional)
    else if j.phase.Undoing? && Acts(j.f.undo) then R.UndoWrite(h, j.name, j.provisional)
    else if j.phase.OldEntry? && j.former.Some? && Acts(j.f.oldEntry) then R.Retire(h, j.former.value.agent)
    else if j.phase.Publishing? && Acts(j.f.publish) then R.Publish(h, j.name, j.completed)
    else h
  }

  /** One more call. */
  lemma OneCall(o: State, s: State, id: Id) returns (t: State)
    requires id in o.jobs && id in s.jobs && Leads(o, s, id) && !s.jobs[id].phase.Ended?
    ensures id in t.jobs && Leads(o, t, id) && t.jobs[id] == s.jobs[id].(phase := After(s, s.jobs[id]))
    ensures t.ident == AfterCall(s.ident, id, s.jobs[id]) && t.reg.hashes == HashesAfter(s.reg.hashes, s.jobs[id])
  {
    t := Next(s, Call(id));
    CallEffects(s, id);
    hide RegInv, Next, After, AfterCall, HashesAfter;
  }

  lemma CallHashes(s: State, id: Id)
    requires RegInv(s) && id in s.jobs && !s.jobs[id].phase.Ended? && R.ValidRun(s.reg, CallEvents(id, s.jobs[id]))
    ensures var j, h, h' := s.jobs[id], s.reg.hashes, R.Run(s.reg, CallEvents(id, s.jobs[id])).hashes;
            h' == HashesAfter(h, j)
  {
    var j, es := s.jobs[id], CallEvents(id, s.jobs[id]);
    assert RegJobOk(s.reg, id, j);
    hide R.WriteProvisional, R.UndoWrite, R.Retire, R.Publish, RegInv, R.Inv, Consistent, Strands;
    if |es| == 1 {
      assert es == [es[0]];
      RunOfOne(s.reg, es[0]);
    } else if |es| == 2 {
      assert es == [es[0], es[1]];
      RunOfTwo(s.reg, es[0], es[1]);
    }
  }

  /** The request and the world that a job stands for. */
  ghost predicate StandsFor(s: State, j: Job, w: World, r: Request) {
    && w.hashes == s.reg.hashes && w.sess == s.ident.sess
    && j.former == Some(I.Member(w.agent, w.session))
    && r.name == j.name && r.sid == j.sid && r.provisional == j.provisional && r.completed == j.completed && r.later == None
  }

  /** Prune and create: the session is there, or the creation has failed. */
  lemma LoneSession(s: State, id: Id) returns (t: State)
    requires RegInv(s) && id in s.jobs && s.jobs[id].phase.Pruning?
    ensures id in t.jobs && Leads(s, t, id) && t.reg.hashes == s.reg.hashes
    ensures var j, x := s.jobs[id], s.ident.sess;
            var y := if Acts(j.f.prune) then I.Prune(x, j.name) else x;
            && t.jobs[id] == j.(phase := if Heard(j.f.prune) && Heard(j.f.create) then Writing else Ended(FailedBefore))
            && t.ident.sess == if Heard(j.f.prune) && Acts(j.f.create) then I.Create(y, j.sid, j.name) else y
  {
    hide RegInv, I.Prune, I.Create;
    assert Leads(s, s, id);
    hide Leads;
    t := OneCall(s, s, id);
    if Heard(s.jobs[id].f.prune) { t := OneCall(s, t, id); }
  }

  /** The write, and the clean-up if it was not heard. */
  lemma LoneWrite(o: State, s: State, id: Id) returns (t: State)
    requires id in o.jobs && id in s.jobs && Leads(o, s, id) && s.jobs[id].phase.Writing? && s.jobs[id].former.Some?
    ensures id in t.jobs && Leads(o, t, id)
    ensures var j, h, x := s.jobs[id], s.reg.hashes, s.ident.sess;
            && t.jobs[id] == j.(phase := if Heard(j.f.write) then Transferring else Ended(FailedBefore))
            && t.reg.hashes == (if Acts(j.f.write) then R.WriteProvisional(h, j.name, j.provisional) else h)
            && t.ident.sess == if !Heard(j.f.write) && Acts(j.f.cleanup) then I.Leave(I.Drop(x, j.sid), j.name, j.sid) else x
  {
    hide Leads, I.Drop, I.Leave, R.WriteProvisional;
    t := OneCall(o, s, id);
    if !Heard(s.jobs[id].f.write) { t := OneCall(o, t, id); }
  }

  lemma LoneCreation(s: State, id: Id, w: World, r: Request) returns (t: State)
    requires RegInv(s) && id in s.jobs && s.jobs[id].phase.Pruning? && StandsFor(s, s.jobs[id], w, r)
    ensures id in t.jobs && Leads(s, t, id)
    ensures t.jobs[id] == s.jobs[id].(phase := if CreateSession(w, r, s.jobs[id].f).1 then Transferring else Ended(FailedBefore))
    ensures t.reg.hashes == CreateSession(w, r, s.jobs[id].f).0.hashes && t.ident.sess == CreateSession(w, r, s.jobs[id].f).0.sess
  {
    t := LoneSession(s, id);
    hide RegInv, Leads, I.Prune, I.Create, I.Drop, I.Leave, R.WriteProvisional;
    if t.jobs[id].phase.Writing? { t := LoneWrite(s, t, id); }
  }

  /** Read, delete, leave, of the new session. */
  lemma LoneCloseOfNew(o: State, s: State, id: Id) returns (t: State)
    requires id in o.jobs && id in s.jobs && Leads(o, s, id) && s.jobs[id].phase.NewRead?
    ensures id in t.jobs && Leads(o, t, id) && t.reg.hashes == s.reg.hashes && t.jobs[id] == s.jobs[id].(phase := Undoing)
    ensures var j := s.jobs[id]; t.ident.sess == Close(s.ident.sess, j.sid, j.f.closeRead, j.f.closeDelete, j.f.closeLeave).0
  {
    hide Leads, I.Drop, I.Leave;
    t := OneCall(o, s, id);
    if t.jobs[id].phase.Undoing? { return; }
    t := OneCall(o, t, id);
    if t.jobs[id].phase.Undoing? { return; }
    t := OneCall(o, t, id);
  }

  lemma LoneCloseOfOld(o: State, s: State, id: Id) returns (t: State)
    requires id in o.jobs && id in s.jobs && Leads(o, s, id) && s.jobs[id].phase.OldRead? && s.jobs[id].former.Some?
    ensures id in t.jobs && Leads(o, t, id) && t.reg.hashes == s.reg.hashes && t.jobs[id] == s.jobs[id].(phase := OldEntry)
    ensures var j := s.jobs[id]; t.ident.sess == Close(s.ident.sess, j.former.value.sid, j.f.oldRead, j.f.oldDelete, j.f.oldLeave).0
  {
    hide Leads, I.Drop, I.Leave;
    t := OneCall(o, s, id);
    if t.jobs[id].phase.OldEntry? { return; }
    t := OneCall(o, t, id);
    if t.jobs[id].phase.OldEntry? { return; }
    t := OneCall(o, t, id);
  }

  /** From the transfer's report to the end. */
  lemma LoneTail(o: State, s: State, id: Id) returns (t: State)
    requires id in o.jobs && id in s.jobs && Leads(o, s, id) && s.jobs[id].phase.Transferring? && s.jobs[id].former.Some?
    ensures id in t.jobs && Leads(o, t, id)
    ensures var j, h, x := s.jobs[id], s.reg.hashes, s.ident.sess;
            if s.jobs[id].moved then
              var kept := if Acts(j.f.oldEntry) then R.Retire(h, j.former.value.agent) else h;
              && t.ident.sess == Close(x, j.former.value.sid, j.f.oldRead, j.f.oldDelete, j.f.oldLeave).0
              && t.reg.hashes == (if Acts(j.f.publish) then R.Publish(kept, j.name, j.completed) else kept)
              && t.jobs[id].phase == Ended(if Heard(j.f.publish) && j.name != "" then Renamed else FailedAfter)
            else
              && t.ident.sess == Close(x, j.sid, j.f.closeRead, j.f.closeDelete, j.f.closeLeave).0
              && t.reg.hashes == (if Acts(j.f.undo) then R.UndoWrite(h, j.name, j.provisional) else h)
              && t.jobs[id].phase == Ended(FailedBefore)
  {
    hide Leads, Close, R.Publish, R.Retire, R.UndoWrite;
    t := OneCall(o, s, id);
    if s.jobs[id].moved {
      t := LoneCloseOfOld(o, t, id);
      t := OneCall(o, t, id);
    } else {
      t := LoneCloseOfNew(o, t, id);
    }
    t := OneCall(o, t, id);
  }

  /**
   * Without interruption the calls of a rename add up to Register, under every
   * assignment of faults: the same hashes, the same sessions, the same end.
   */
  lemma LoneRenameIsRegister(s: State, id: Id, w: World, r: Request)
    requires RegInv(s) && id in s.jobs && s.jobs[id].phase.Pruning? && StandsFor(s, s.jobs[id], w, r)
    requires s.jobs[id].moved == Transfer(CreateSession(w, r, s.jobs[id].f).0, r, s.jobs[id].f).1
    ensures id in Alone(s, id).jobs && Alone(s, id).jobs[id].phase == Ended(Register(w, r, s.jobs[id].f).1)
    ensures Alone(s, id).reg.hashes == Register(w, r, s.jobs[id].f).0.hashes
    ensures Alone(s, id).ident.sess == Register(w, r, s.jobs[id].f).0.sess
  {
    var f := s.jobs[id].f;
    CreationKeepsNames(w, r, f);
    var t := LoneCreation(s, id, w, r);
    if CreateSession(w, r, f).1 {
      hide RegInv, CreateSession, Transfer, Close, R.Publish, R.Retire, R.UndoWrite;
      t := LoneTail(s, t, id);
    } else {
      hide RegInv, CreateSession;
    }
    assert Alone(t, id) == t;
  }

  lemma CreationKeepsNames(w: World, r: Request, f: Faults)
    ensures CreateSession(w, r, f).0.agent == w.agent && CreateSession(w, r, f).0.session == w.session
  {
  }
}
