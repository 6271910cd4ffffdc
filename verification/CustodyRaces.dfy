/**
 * Custody under concurrency: any number of clients of one worktree path, each
 * read and each compare-and-set a step of its own (src/core/custody-store.ts).
 * A client that stops taking steps has crashed.
 */
module CustodyRaces {
  import opened Options
  import opened CustodyModel
  import opened CustodyStore

  // ----------------------------------------------- operations one at a time

  /** By whose clock the operation goes. */
  function Clock(op: Op): Stamp {
    if op.Claim? then At(op.clock) else op.now
  }

  /** An operation alone leaves a hold in place exactly if it comes by the end of the lease and is not the release by its session. */
  lemma AloneKeepsHoldIff(op: Op, r: Record)
    requires Begun(op) && WellFormed(r) && r.tag == Held && r.worktree.path != ""
    requires op.Claim? ==> op.seconds >= 0
    ensures Alone(op, Some(Stored(r))).0 == Some(Stored(r)) <==>
              WithinLease(r, Clock(op)) && !(op.Release? && op.session == r.custodian.value.session)
  {
    if op.Claim? { ClaimOfHold(op, r); } else if op.Release? { ReleaseOf(op, Some(r)); } else { StatusOf(op.now, Some(r)); }
    hide Alone;
  }

  /** So a hold lasts exactly to the end of its lease: t is the operation's clock, l the lease. */
  lemma HoldLastsToItsLease(op: Op, r: Record, l: int, t: int)
    requires Begun(op) && WellFormed(r) && r.tag == Held && r.worktree.path != ""
    requires op.Claim? ==> op.seconds >= 0
    requires r.lease == Some(At(l)) && Clock(op) == At(t)
    ensures Alone(op, Some(Stored(r))).0 == Some(Stored(r)) <==> t <= l && !(op.Release? && op.session == r.custodian.value.session)
  {
    AloneKeepsHoldIff(op, r);
    hide Alone;
  }

  function AloneRun(ops: seq<Op>, cell: Option<Cell>): Option<Cell>
    requires forall i :: 0 <= i < |ops| ==> Begun(ops[i])
    decreases |ops|
  {
    if ops == [] then cell else AloneRun(ops[1..], Alone(ops[0], cell).0)
  }

  /** With operations that do not interleave, no hold ends before its lease does or its session lets go. */
  lemma {:induction false} HoldOutlastsItsLease(ops: seq<Op>, r: Record)
    requires WellFormed(r) && r.tag == Held && r.worktree.path != ""
    requires forall i :: 0 <= i < |ops| ==> Begun(ops[i]) && WithinLease(r, Clock(ops[i]))
    requires forall i :: 0 <= i < |ops| && ops[i].Claim? ==> ops[i].seconds >= 0
    requires forall i :: 0 <= i < |ops| && ops[i].Release? ==> ops[i].session != r.custodian.value.session
    ensures AloneRun(ops, Some(Stored(r))) == Some(Stored(r))
    decreases |ops|
  {
    if ops != [] {
      AloneKeepsHoldIff(ops[0], r);
      HoldOutlastsItsLease(ops[1..], r);
    }
  }

  // ---------------------------------------------------------- interleaved

  type Client = nat

  /** seen is what the client's last read found, at the number of writes then made. */
  datatype Stage =
    | Reading(op: Op, attempt: nat)
    | Healing(op: Op, attempt: nat, record: Record, at: nat)
    | Putting(op: Op, attempt: nat, choice: Choice, seen: Option<Record>, at: nat)
    | LastRead(op: Op)
    | Finished(answer: Answer)

  datatype State = State(cell: Option<Cell>, writes: nat, clients: map<Client, Stage>)

  const Start := State(None, 0, map[])

  datatype Step = Begin(c: Client, op: Op) | Go(c: Client)

  function Move(s: State, c: Client, stage: Stage): State {
    s.(clients := s.clients[c := stage])
  }

  function Write(s: State, r: Record): State {
    s.(cell := Some(Stored(r)), writes := s.writes + 1)
  }

  function Plan(op: Op, attempt: nat, found: Option<Record>, seen: Option<Record>, at: nat): Stage
    requires Begun(op)
  {
    var choice := Decide(op, found);
    if choice.Answering? then Finished(choice.answer) else Putting(op, attempt, choice, seen, at)
  }

  function ReadNext(s: State, op: Op, attempt: nat): Stage
    requires Begun(op)
  {
    if Corrupt(s.cell) then Finished(Failed(StoreCorrupt)) else
    var found := Content(s.cell);
    if found.Some? && LeasePassed(found.value, Now(op)) then Healing(op, attempt, found.value, s.writes)
    else Plan(op, attempt, found, found, s.writes)
  }

  /** The forfeiting write; the client goes on with the forfeited record even if it lost. */
  function HealNext(s: State, c: Client, stage: Stage): State
    requires stage.Healing? && Begun(stage.op)
  {
    var gone := Vacate(stage.record, Forfeited);
    if Matches(s.cell, Some(Held), "")
    then Move(Write(s, gone), c, Plan(stage.op, stage.attempt, Some(gone), Some(gone), s.writes + 1))
    else Move(s, c, Plan(stage.op, stage.attempt, Some(gone), Some(stage.record), stage.at))
  }

  function PutNext(s: State, c: Client, stage: Stage): State
    requires stage.Putting? && stage.choice.Writing?
  {
    if Matches(s.cell, stage.choice.expected, stage.choice.session)
    then Move(Write(s, stage.choice.record), c, Finished(Done(stage.choice.record)))
    else Move(s, c, if stage.attempt + 1 < 2 then Reading(stage.op, stage.attempt + 1) else LastRead(stage.op))
  }

  function GoNext(s: State, c: Client, stage: Stage): State {
    match stage
    case Reading(op, attempt) => if Begun(op) then Move(s, c, ReadNext(s, op, attempt)) else s
    case Healing(op, _, _, _) => if Begun(op) then HealNext(s, c, stage) else s
    case Putting(_, _, choice, _, _) => if choice.Writing? then PutNext(s, c, stage) else s
    case LastRead(op) =>
      Move(s, c, Finished(if Corrupt(s.cell) then Failed(StoreCorrupt) else LastWord(op, Content(s.cell))))
    case Finished(_) => s
  }

  /** path names the one field the clients share. */
  function Next(s: State, path: string, step: Step): State {
    match step
    case Begin(c, op) =>
      if Begun(op) && (op.Claim? ==> op.worktree.path == path) && (c in s.clients ==> s.clients[c].Finished?)
      then Move(s, c, Reading(op, 0)) else s
    case Go(c) => if c in s.clients then GoNext(s, c, s.clients[c]) else s
  }

  function Run(s: State, path: string, steps: seq<Step>): State
    decreases |steps|
  {
    if steps == [] then s else Run(Next(s, path, steps[0]), path, steps[1..])
  }

  // ------------------------------------------------------------ invariants

  ghost predicate RecordOk(r: Record, path: string) {
    WellFormed(r) && r.worktree.path == path
  }

  /** One write later: what the tag read may have become. */
  predicate OneWriteLater(seen: Option<Record>, now: Tag) {
    match seen
    case None => now == Held
    case Some(r) => if r.tag == Held then now == Released || now == Forfeited else now == Held
  }

  function Lift(seen: Option<Record>): Option<Cell> {
    if seen == None then None else Some(Stored(seen.value))
  }

  /** What is known of the cell since a read that found seen. */
  ghost predicate Since(s: State, seen: Option<Record>, at: nat) {
    && at <= s.writes
    && (s.writes == at ==> s.cell == Lift(seen))
    && (s.writes == at + 1 ==> s.cell.Some? && s.cell.value.Stored? && OneWriteLater(seen, s.cell.value.record.tag))
  }

  /** A write that was decided on the record read, or on that record forfeited. */
  ghost predicate Planned(op: Op, choice: Choice, seen: Option<Record>) {
    Begun(op) && choice.Writing? &&
    (choice == Decide(op, seen) ||
     (seen.Some? && LeasePassed(seen.value, Now(op)) && choice == Decide(op, Some(Vacate(seen.value, Forfeited)))))
  }

  ghost predicate StageOk(s: State, path: string, stage: Stage) {
    match stage
    case Reading(op, _) => Begun(op) && (op.Claim? ==> op.worktree.path == path)
    case Healing(op, _, r, at) =>
      Begun(op) && (op.Claim? ==> op.worktree.path == path) &&
      RecordOk(r, path) && LeasePassed(r, Now(op)) && Since(s, Some(r), at)
    case Putting(op, _, choice, seen, at) =>
      (op.Claim? ==> op.worktree.path == path) &&
      (seen.Some? ==> RecordOk(seen.value, path)) && Planned(op, choice, seen) && Since(s, seen, at)
    case LastRead(_) => true
    case Finished(_) => true
  }

  ghost predicate CellOk(s: State, path: string) {
    s.cell.Some? && s.cell.value.Stored? ==> RecordOk(s.cell.value.record, path)
  }

  ghost predicate Inv(s: State, path: string) {
    CellOk(s, path) && forall c :: c in s.clients ==> StageOk(s, path, s.clients[c])
  }

  /** A decided write is a custody transition of the record it was decided on. */
  lemma DecisionIsTransition(op: Op, found: Option<Record>, path: string)
    requires Begun(op) && Decide(op, found).Writing?
    requires found.Some? ==> RecordOk(found.value, path)
    requires op.Claim? ==> op.worktree.path == path
    ensures var c := Decide(op, found);
            && RecordOk(c.record, path)
            && c.expected == (if found.Some? then Some(found.value.tag) else None)
            && OneWriteLater(found, c.record.tag)
            && (op.Claim? ==> c.record.tag == Held && c.record.custodian == Some(op.custodian) && c.session == "" &&
                              (found.Some? && found.value.tag == Forfeited ==> ValidInventory(op.inventory)))
            && (op.Release? ==> c.record.tag == Released && c.session == op.session && c.session != "")
            && !op.Status?
  {
    if op.Claim? {
      var lease, acquired := At(op.clock + op.seconds * 1000), Some(At(op.clock));
      if found == None {
        TransitionFollowsEdges(CreateCustody(op.worktree), ClaimEvent(op.custodian, lease, acquired));
      } else if found.value.tag == Forfeited {
        TransitionFollowsEdges(found.value, AssumeEvent(op.custodian, lease, acquired, op.inventory));
      } else {
        TransitionFollowsEdges(found.value, ClaimEvent(op.custodian, lease, acquired));
      }
    } else if op.Release? {
      TransitionFollowsEdges(found.value, ReleaseEvent(AsInput(op.handoff)));
    }
  }

  /** A step that writes nothing. */
  lemma SilentStep(s: State, path: string, c: Client, stage: Stage)
    requires Inv(s, path) && StageOk(s, path, stage)
    ensures Inv(Move(s, c, stage), path)
  {
    hide Planned, RecordOk, LeasePassed, OneWriteLater;
    var s' := Move(s, c, stage);
    forall d | d in s'.clients ensures StageOk(s', path, s'.clients[d]) {
      assert d != c ==> StageOk(s, path, s.clients[d]);
    }
  }

  /** A write by c: the others have seen one write more. */
  lemma WritingStep(s: State, path: string, c: Client, r: Record, stage: Stage)
    requires Inv(s, path) && RecordOk(r, path)
    requires s.cell == None || s.cell.value.Stored?
    requires OneWriteLater(if s.cell == None then None else Some(s.cell.value.record), r.tag)
    requires StageOk(Write(s, r), path, stage)
    ensures Inv(Move(Write(s, r), c, stage), path)
  {
    hide Planned, RecordOk, LeasePassed, OneWriteLater;
    var s' := Move(Write(s, r), c, stage);
    forall d | d in s'.clients ensures StageOk(s', path, s'.clients[d]) {
      if d != c { assert StageOk(s, path, s.clients[d]); }
    }
  }

  lemma PlanOk(s: State, path: string, op: Op, attempt: nat, found: Option<Record>, seen: Option<Record>, at: nat)
    requires Begun(op) && (op.Claim? ==> op.worktree.path == path)
    requires seen.Some? ==> RecordOk(seen.value, path)
    requires Since(s, seen, at)
    requires found == seen ||
             (seen.Some? && LeasePassed(seen.value, Now(op)) && found == Some(Vacate(seen.value, Forfeited)))
    ensures StageOk(s, path, Plan(op, attempt, found, seen, at))
  {
    hide RecordOk, LeasePassed, OneWriteLater, Decide;
  }

  lemma HealKeepsInv(s: State, path: string, c: Client)
    requires Inv(s, path) && c in s.clients && s.clients[c].Healing?
    ensures Inv(Next(s, path, Go(c)), path)
  {
    var stage := s.clients[c];
    assert StageOk(s, path, stage);
    var gone := Vacate(stage.record, Forfeited);
    assert RecordOk(gone, path);
    hide LeasePassed, Decide, RecordOk;
    if Matches(s.cell, Some(Held), "") {
      var s1 := Write(s, gone);
      PlanOk(s1, path, stage.op, stage.attempt, Some(gone), Some(gone), s.writes + 1);
      WritingStep(s, path, c, gone, Plan(stage.op, stage.attempt, Some(gone), Some(gone), s.writes + 1));
    } else {
      PlanOk(s, path, stage.op, stage.attempt, Some(gone), Some(stage.record), stage.at);
      SilentStep(s, path, c, Plan(stage.op, stage.attempt, Some(gone), Some(stage.record), stage.at));
    }
  }

  /** The record a planned write was decided on. */
  function Basis(op: Op, choice: Choice, seen: Option<Record>): Option<Record>
    requires Begun(op)
  {
    if choice == Decide(op, seen) then seen
    else if seen.Some? then Some(Vacate(seen.value, Forfeited)) else None
  }

  lemma PlannedIsTransition(s: State, path: string, stage: Stage)
    requires stage.Putting? && StageOk(s, path, stage)
    ensures var b := Basis(stage.op, stage.choice, stage.seen);
            (b.Some? ==> RecordOk(b.value, path)) && stage.choice == Decide(stage.op, b)
  {
    hide Decide;
    if stage.choice != Decide(stage.op, stage.seen) {
      assert stage.seen.value.tag == Held;
    }
  }

  lemma PutKeepsInv(s: State, path: string, c: Client)
    requires Inv(s, path) && c in s.clients && s.clients[c].Putting?
    ensures Inv(Next(s, path, Go(c)), path)
  {
    hide Decide, LeasePassed;
    var stage := s.clients[c];
    assert StageOk(s, path, stage);
    PlannedIsTransition(s, path, stage);
    var b := Basis(stage.op, stage.choice, stage.seen);
    DecisionIsTransition(stage.op, b, path);
    hide RecordOk;
    if Matches(s.cell, stage.choice.expected, stage.choice.session) {
      WritingStep(s, path, c, stage.choice.record, Finished(Done(stage.choice.record)));
    } else {
      SilentStep(s, path, c, if stage.attempt + 1 < 2 then Reading(stage.op, stage.attempt + 1) else LastRead(stage.op));
    }
  }

  lemma ReadKeepsInv(s: State, path: string, c: Client)
    requires Inv(s, path) && c in s.clients && s.clients[c].Reading?
    ensures Inv(Next(s, path, Go(c)), path)
  {
    hide Decide, LeasePassed, RecordOk, ReadableNow;
    var stage := s.clients[c];
    assert StageOk(s, path, stage);
    if !Corrupt(s.cell) {
      var found := Content(s.cell);
      assert Since(s, found, s.writes);
      if !(found.Some? && LeasePassed(found.value, Now(stage.op))) {
        PlanOk(s, path, stage.op, stage.attempt, found, found, s.writes);
      }
    }
    SilentStep(s, path, c, ReadNext(s, stage.op, stage.attempt));
  }

  lemma StepKeepsInv(s: State, path: string, step: Step)
    requires Inv(s, path)
    ensures Inv(Next(s, path, step), path)
  {
    match step
    case Begin(c, op) =>
      if Begun(op) && (op.Claim? ==> op.worktree.path == path) { SilentStep(s, path, c, Reading(op, 0)); }
    case Go(c) =>
      if c in s.clients {
        match s.clients[c]
        case Reading(_, _) => ReadKeepsInv(s, path, c);
        case Healing(_, _, _, _) => HealKeepsInv(s, path, c);
        case Putting(_, _, _, _, _) => PutKeepsInv(s, path, c);
        case LastRead(op) =>
          SilentStep(s, path, c, Finished(if Corrupt(s.cell) then Failed(StoreCorrupt) else LastWord(op, Content(s.cell))));
        case Finished(_) =>
      }
  }

  lemma {:induction false} RunKeepsInv(s: State, path: string, steps: seq<Step>)
    requires Inv(s, path)
    ensures Inv(Run(s, path, steps), path)
    decreases |steps|
  {
    hide Inv, Next;
    if steps != [] {
      StepKeepsInv(s, path, steps[0]);
      RunKeepsInv(Next(s, path, steps[0]), path, steps[1..]);
    }
  }

  /** From its plan on: one write, or none. */
  lemma PlanIsCarriedOut(s: State, path: string, c: Client, op: Op, found: Option<Record>, seen: Option<Record>, at: nat)
    requires Begun(op) && c in s.clients && s.clients[c] == Plan(op, 0, found, seen, at)
    requires s.cell == (if found.Some? then Some(Stored(found.value)) else None)
    requires var choice := Decide(op, found); choice.Writing? ==> Matches(s.cell, choice.expected, choice.session)
    ensures var choice, s' := Decide(op, found), Next(s, path, Go(c));
            && s'.cell == (if choice.Writing? then Some(Stored(choice.record)) else s.cell)
            && s'.clients == s.clients[c := Finished(if choice.Writing? then Done(choice.record) else choice.answer)]
            && Next(s', path, Go(c)) == s'
  {
    hide Decide, Matches;
  }

  ghost predicate DoneAlone(s: State, s': State, c: Client, op: Op)
    requires Begun(op)
  {
    s'.cell == Alone(op, s.cell).0 && s'.clients == s.clients[c := Finished(Alone(op, s.cell).1)]
  }

  lemma BegunAndRead(s: State, path: string, c: Client, op: Op)
    requires c !in s.clients && Begun(op) && (op.Claim? ==> op.worktree.path == path)
    ensures Next(Next(s, path, Begin(c, op)), path, Go(c)) == Move(s, c, ReadNext(s, op, 0))
  {
    hide Decide, ReadableNow;
    assert Next(s, path, Begin(c, op)) == Move(s, c, Reading(op, 0));
  }

  lemma AloneHeals(op: Op, r: Record)
    requires Begun(op) && !Corrupt(Some(Stored(r))) && LeasePassed(r, Now(op))
    ensures var gone := Vacate(r, Forfeited);
            var choice := Decide(op, Some(gone));
            && r.tag == Held
            && (choice.Writing? ==> Matches(Some(Stored(gone)), choice.expected, choice.session))
            && Alone(op, Some(Stored(r))) ==
               if choice.Writing? then (Some(Stored(choice.record)), Done(choice.record)) else (Some(Stored(gone)), choice.answer)
  {
    AloneNeverRetries(op, Some(Stored(r)));
    hide Decide, ReadableNow, Matches;
  }

  lemma HealThenPlan(s: State, path: string, c: Client, op: Op, r: Record)
    requires c !in s.clients && Begun(op) && s.cell == Some(Stored(r)) && r.tag == Held
    ensures var gone := Vacate(r, Forfeited);
            Next(Move(s, c, Healing(op, 0, r, s.writes)), path, Go(c)) ==
            Move(Write(s, gone), c, Plan(op, 0, Some(gone), Some(gone), s.writes + 1))
  {
    hide Plan;
  }

  lemma HealingIsAlone(s: State, path: string, c: Client, op: Op)
    requires c !in s.clients && Begun(op) && !Corrupt(s.cell) && s.cell.Some? && LeasePassed(s.cell.value.record, Now(op))
    ensures DoneAlone(s, Next(Next(Move(s, c, ReadNext(s, op, 0)), path, Go(c)), path, Go(c)), c, op)
  {
    var r := s.cell.value.record;
    var gone := Vacate(r, Forfeited);
    var s3 := Move(Write(s, gone), c, Plan(op, 0, Some(gone), Some(gone), s.writes + 1));
    assert s.cell == Some(Stored(r)) && ReadNext(s, op, 0) == Healing(op, 0, r, s.writes) by { hide Decide, ReadableNow, LeasePassed; }
    hide Decide, ReadableNow, LeasePassed, Plan, ReadNext, Next, Alone, Matches;
    AloneHeals(op, r);
    HealThenPlan(s, path, c, op, r);
    PlanIsCarriedOut(s3, path, c, op, Some(gone), Some(gone), s.writes + 1);
  }

  lemma PlanningIsAlone(s: State, path: string, c: Client, op: Op)
    requires c !in s.clients && Begun(op) && !Corrupt(s.cell) && (s.cell.Some? ==> !LeasePassed(s.cell.value.record, Now(op)))
    ensures DoneAlone(s, Next(Next(Move(s, c, ReadNext(s, op, 0)), path, Go(c)), path, Go(c)), c, op)
  {
    AloneNeverRetries(op, s.cell);
    var found := Content(s.cell);
    hide Decide, ReadableNow, LeasePassed, Plan, Next;
    PlanIsCarriedOut(Move(s, c, Plan(op, 0, found, found, s.writes)), path, c, op, found, found, s.writes);
  }

  /**
   * A client that nobody interrupts does what the operation does alone, from
   * whatever state the others have left: begin, read, forfeit if it must, write.
   */
  lemma UninterruptedIsAlone(s: State, path: string, c: Client, op: Op)
    requires c !in s.clients && Begun(op) && (op.Claim? ==> op.worktree.path == path)
    ensures var s' := Next(Next(Next(Next(s, path, Begin(c, op)), path, Go(c)), path, Go(c)), path, Go(c));
            && s'.cell == Alone(op, s.cell).0
            && s'.clients == s.clients[c := Finished(Alone(op, s.cell).1)]
  {
    BegunAndRead(s, path, c, op);
    if Corrupt(s.cell) {
      hide ReadableNow;
    } else if s.cell.Some? && LeasePassed(s.cell.value.record, Now(op)) {
      hide Next, Alone;
      HealingIsAlone(s, path, c, op);
    } else {
      hide Next, Alone;
      PlanningIsAlone(s, path, c, op);
    }
  }

  /** A lost race is run again once, from the read; after two the client reads once more and answers. */
  lemma LostRaceIsRunAgainOnce(s: State, path: string, c: Client)
    requires c in s.clients && s.clients[c].Putting? && s.clients[c].choice.Writing? && Next(s, path, Go(c)).writes == s.writes
    ensures var stage := s.clients[c];
            Next(s, path, Go(c)).clients[c] == if stage.attempt == 0 then Reading(stage.op, 1) else LastRead(stage.op)
  {
  }

  // -------------------------------------------------- what a write replaces

  /** Every write of every run follows one of these edges of what is really stored. */
  ghost predicate LegalWrite(before: Option<Cell>, after: Record, stage: Stage) {
    match stage
    case Putting(Claim(_, custodian, _, _, inventory), _, choice, _, _) =>
      && (before.Some? ==> before.value.Stored? && before.value.record.tag != Held)
      && after.tag == Held && after.custodian == Some(custodian)
      && (before.Some? && before.value.record.tag == Forfeited ==> ValidInventory(inventory))
    case Putting(Release(session, _, _), _, choice, _, _) =>
      && before.Some? && before.value.Stored? && before.value.record.tag == Held
      && before.value.record.custodian.Some? && before.value.record.custodian.value.session == session
      && after.tag == Released
    case Healing(_, _, _, _) =>
      && before.Some? && before.value.Stored? && before.value.record.tag == Held
      && after.tag == Forfeited && after.custodian == None
    case _ => false
  }

  lemma PutWrites(s: State, path: string, c: Client)
    requires Inv(s, path) && c in s.clients && s.clients[c].Putting?
    ensures var s' := Next(s, path, Go(c));
            s'.writes > s.writes ==>
              s'.cell.Some? && s'.cell.value.Stored? && LegalWrite(s.cell, s'.cell.value.record, s.clients[c])
  {
    var stage := s.clients[c];
    assert StageOk(s, path, stage);
    hide Decide, LeasePassed, ReadableNow;
    PlannedIsTransition(s, path, stage);
    DecisionIsTransition(stage.op, Basis(stage.op, stage.choice, stage.seen), path);
    hide RecordOk, Inv, Since;
  }

  lemma GoWrites(s: State, path: string, c: Client)
    requires Inv(s, path) && c in s.clients
    ensures var s' := Next(s, path, Go(c));
            s'.writes > s.writes ==>
              s'.cell.Some? && s'.cell.value.Stored? && LegalWrite(s.cell, s'.cell.value.record, s.clients[c])
    ensures var s' := Next(s, path, Go(c)); s'.writes == s.writes ==> s'.cell == s.cell
  {
    hide Decide, RecordOk, LeasePassed, ReadableNow, Inv;
    if s.clients[c].Putting? { PutWrites(s, path, c); }
  }

  /**
   * In every run: a claim never replaces a held record; a held record ends
   * only by its own session's release or by a forfeiture; and a forfeited one
   * becomes held only with a non-empty inventory.
   */
  lemma EveryWriteIsLegal(path: string, steps: seq<Step>, step: Step)
    ensures var s := Run(Start, path, steps);
            var s' := Next(s, path, step);
            s'.cell != s.cell ==>
              step.Go? && step.c in s.clients && s'.cell.Some? && s'.cell.value.Stored? &&
              LegalWrite(s.cell, s'.cell.value.record, s.clients[step.c])
  {
    RunKeepsInv(Start, path, steps);
    var s := Run(Start, path, steps);
    hide Run, Inv;
    if step.Go? && step.c in s.clients { GoWrites(s, path, step.c); }
  }

  /**
   * The tag is all that is compared, so a write may land on a newer record
   * than the one it was decided on; but then at least two writes came between.
   * (A client whose forfeiture lost goes on without having read the cell, so
   * this speaks of writes that expect the tag that was read.)
   */
  lemma WritesLandOnWhatWasReadOrTwoLater(s: State, path: string, c: Client)
    requires Inv(s, path) && c in s.clients && Next(s, path, Go(c)).writes > s.writes
    ensures var stage := s.clients[c];
            && (stage.Healing? ==> s.cell == Some(Stored(stage.record)) || s.writes >= stage.at + 2)
            && (stage.Putting? && stage.choice.expected == (if stage.seen.Some? then Some(stage.seen.value.tag) else None) ==>
                  s.cell == Lift(stage.seen) || s.writes >= stage.at + 2)
  {
    hide Decide, RecordOk;
    assert StageOk(s, path, s.clients[c]);
  }

  /** The client's forfeiting write ends a hold whose lease, by the client's own clock, has not passed. */
  predicate EndsLiveHold(s: State, path: string, c: Client) {
    && c in s.clients && s.clients[c].Healing? && Next(s, path, Go(c)).writes > s.writes
    && s.cell.Some? && s.cell.value.Stored? && WithinLease(s.cell.value.record, Clock(s.clients[c].op))
  }

  /** It never does so unless at least two writes have replaced the record that the client read. */
  lemma EarlyForfeitureIsTwoWritesLater(s: State, path: string, c: Client)
    requires Inv(s, path) && EndsLiveHold(s, path, c)
    ensures s.writes >= s.clients[c].at + 2 && s.cell != Some(Stored(s.clients[c].record))
  {
    assert StageOk(s, path, s.clients[c]);
    WritesLandOnWhatWasReadOrTwoLater(s, path, c);
  }

  // ------------------------------------------- if the whole record decided

  predicate Forfeits(s: State, path: string, step: Step) {
    step.Go? && step.c in s.clients && s.clients[step.c].Healing? && Next(s, path, step).writes > s.writes
  }

  /** Every forfeiting write of the run lands on the very record its client read. */
  predicate LandsOnRead(s: State, path: string, steps: seq<Step>)
    decreases |steps|
  {
    steps == [] ||
    ((Forfeits(s, path, steps[0]) ==> s.cell == Some(Stored(s.clients[steps[0].c].record))) &&
     LandsOnRead(Next(s, path, steps[0]), path, steps[1..]))
  }

  /** An operation that may not end hold r: r's lease has not passed, and it is not the release by r's session. */
  predicate Spares(op: Op, r: Record) {
    WithinLease(r, Clock(op)) && !(op.Release? && r.custodian.Some? && op.session == r.custodian.value.session)
  }

  predicate Busy(stage: Stage) {
    !stage.Finished? && !stage.LastRead?
  }

  predicate AllSpare(s: State, steps: seq<Step>, r: Record) {
    && (forall c :: c in s.clients && Busy(s.clients[c]) ==> Spares(s.clients[c].op, r))
    && (forall i :: 0 <= i < |steps| && steps[i].Begin? ==> Spares(steps[i].op, r))
  }

  /** Beside operations that spare the hold, only a forfeiture of another record than the stored one ends it. */
  lemma SparingStep(s: State, path: string, step: Step, r: Record)
    requires Inv(s, path) && s.cell == Some(Stored(r)) && r.tag == Held && AllSpare(s, [step], r)
    ensures var s' := Next(s, path, step);
            && (s'.writes == s.writes ==> s'.cell == s.cell && AllSpare(s', [], r))
            && (s'.writes != s.writes ==> Forfeits(s, path, step) && s.cell != Some(Stored(s.clients[step.c].record)))
  {
    var s' := Next(s, path, step);
    hide Decide, RecordOk, ReadableNow;
    if step.Begin? {
      assert Spares([step][0].op, r);
    } else if step.c in s.clients {
      var stage := s.clients[step.c];
      assert StageOk(s, path, stage);
      GoWrites(s, path, step.c);
      if Busy(stage) { assert Spares(stage.op, r); }
      forall d | d in s'.clients && Busy(s'.clients[d]) ensures Spares(s'.clients[d].op, r) {
        if d != step.c { assert s'.clients[d] == s.clients[d]; }
      }
    }
  }

  lemma {:induction false} WritesOnlyGrow(s: State, path: string, steps: seq<Step>)
    ensures Run(s, path, steps).writes >= s.writes
    decreases |steps|
  {
    if steps != [] { WritesOnlyGrow(Next(s, path, steps[0]), path, steps[1..]); }
  }

  /**
   * Among clients that spare it, a hold outlasts any interleaving exactly if
   * every forfeiting write lands on the record that its client read: to
   * compare the whole record, and not its tag, would be enough.
   */
  lemma {:induction false} HoldOutlastsItsLeaseIff(s: State, path: string, steps: seq<Step>, r: Record)
    requires Inv(s, path) && s.cell == Some(Stored(r)) && r.tag == Held && AllSpare(s, steps, r)
    ensures LandsOnRead(s, path, steps) <==> Run(s, path, steps).writes == s.writes
    ensures LandsOnRead(s, path, steps) ==> Run(s, path, steps).cell == Some(Stored(r))
    decreases |steps|
  {
    if steps != [] {
      var s' := Next(s, path, steps[0]);
      assert AllSpare(s, [steps[0]], r);
      SparingStep(s, path, steps[0], r);
      StepKeepsInv(s, path, steps[0]);
      hide Inv, Next, Spares;
      WritesOnlyGrow(s', path, steps[1..]);
      if s'.writes == s.writes { HoldOutlastsItsLeaseIff(s', path, steps[1..], r); }
    }
  }

  lemma {:induction false} LandsOnReadAt(s: State, path: string, steps: seq<Step>, i: nat)
    requires i < |steps| && LandsOnRead(s, path, steps)
    ensures var t := Run(s, path, steps[..i]);
            Forfeits(t, path, steps[i]) ==> t.cell == Some(Stored(t.clients[steps[i].c].record))
    decreases i
  {
    hide Next, Forfeits;
    if i > 0 {
      assert steps[..i][1..] == steps[1..][..i - 1];
      LandsOnReadAt(Next(s, path, steps[0]), path, steps[1..], i - 1);
    }
  }

  /**
   * In every run whose forfeiting writes all land on the record read, no hold
   * ends but by a client whose clock is past its lease or by the release of
   * its own session.
   */
  lemma HoldsEndLawfully(path: string, steps: seq<Step>, i: nat, r: Record)
    requires i < |steps| && LandsOnRead(Start, path, steps)
    requires Run(Start, path, steps[..i]).cell == Some(Stored(r)) && r.tag == Held
    ensures var s := Run(Start, path, steps[..i]);
            var s' := Next(s, path, steps[i]);
            s'.cell != s.cell ==>
              && steps[i].Go? && steps[i].c in s.clients
              && var stage := s.clients[steps[i].c];
                 || (stage.Healing? && !WithinLease(r, Clock(stage.op)) && s'.cell == Some(Stored(Vacate(r, Forfeited))))
                 || (stage.Putting? && stage.op.Release? && r.custodian.Some? && stage.op.session == r.custodian.value.session)
  {
    RunKeepsInv(Start, path, steps[..i]);
    LandsOnReadAt(Start, path, steps, i);
    var s := Run(Start, path, steps[..i]);
    var step := steps[i];
    hide Run, LandsOnRead, Decide, RecordOk, ReadableNow;
    if step.Go? && step.c in s.clients {
      assert StageOk(s, path, s.clients[step.c]);
      GoWrites(s, path, step.c);
    }
  }

  // ------------------------------------------ as it is, no hold is safe

  /** A run from Start stores no garbage, and no client heals an unreadable record. */
  predicate Clean(s: State, path: string) {
    s.cell != Some(Garbage) && forall c :: c in s.clients && s.clients[c].Healing? ==> path != ""
  }

  lemma StepKeepsClean(s: State, path: string, step: Step)
    requires Inv(s, path) && Clean(s, path)
    ensures Clean(Next(s, path, step), path)
  {
    var s' := Next(s, path, step);
    if step.Go? && step.c in s.clients {
      GoWrites(s, path, step.c);
      hide Decide, WellFormed;
      forall d | d in s'.clients && s'.clients[d].Healing? ensures path != "" {
        if d != step.c { assert s.clients[d].Healing?; }
      }
    }
  }

  lemma {:induction false} RunKeepsClean(s: State, path: string, steps: seq<Step>)
    requires Inv(s, path) && Clean(s, path)
    ensures Clean(Run(s, path, steps), path)
    decreases |steps|
  {
    hide Inv, Next, Clean;
    if steps != [] {
      StepKeepsInv(s, path, steps[0]);
      StepKeepsClean(s, path, steps[0]);
      RunKeepsClean(Next(s, path, steps[0]), path, steps[1..]);
    }
  }

  lemma Above(clients: set<Client>) returns (d: Client)
    ensures forall c :: c in clients ==> c < d
  {
    d := 0;
    if clients != {} {
      var x :| x in clients;
      var e := Above(clients - {x});
      assert forall c :: c in clients ==> c == x || c in clients - {x};
      d := if e <= x then x + 1 else e;
    }
  }

  function Claimed(op: Op, r: Record, mode: Mode): Record
    requires op.Claim?
  {
    Hold(r, op.custodian, mode, At(op.clock + op.seconds * 1000), Some(At(op.clock)))
  }

  /** A client that has never acted makes a hold whose lease ends at clock, whatever readable state the cell is in. */
  lemma NewHold(s: State, path: string, clock: int) returns (steps: seq<Step>)
    requires !Corrupt(s.cell)
    requires s.cell.Some? ==> s.cell.value.record.worktree.path == path
    requires s.cell.Some? && s.cell.value.record.tag == Held ==> LeasePassed(s.cell.value.record, At(clock))
    ensures var s' := Run(s, path, steps);
            && (forall c :: c in s.clients ==> c in s'.clients && s'.clients[c] == s.clients[c])
            && s'.cell.Some? && s'.cell.value.Stored?
            && s'.cell.value.record.tag == Held && s'.cell.value.record.lease == Some(At(clock))
  {
    var d := Above(s.clients.Keys);
    assert d !in s.clients;
    var files := List([Text("f")]);
    var op := Claim(Worktree(path, "h", "t"), Custodian("b", "sb"), clock, 0, files);
    assert ValidInventory(files) by { assert files.items[0] == Text("f"); }
    assert Run(s, path, []) == s;
    hide Run, Readable, ValidInventory;
    if s.cell == None {
      var after := Claimed(op, CreateCustody(op.worktree), Initial);
      assert Decide(op, None) == Writing(None, "", after);
      steps := ClaimRuns(s, [], path, d, op, after);
    } else {
      var r := s.cell.value.record;
      if r.tag == Held {
        var after := Claimed(op, Vacate(r, Forfeited), Takeover);
        assert Decide(op, Some(Vacate(r, Forfeited))) == Writing(Some(Forfeited), "", after);
        steps := ExpiredReadRuns(s, [], path, d, op, r);
        steps := TakeoverRuns(s, steps, path, d, op, r, after);
      } else {
        var after := Claimed(op, r, if r.tag == Forfeited then Takeover else if r.tag == Released then Graceful else Initial);
        assert Decide(op, Some(r)) == Writing(Some(r.tag), "", after);
        steps := ClaimRuns(s, [], path, d, op, after);
      }
    }
  }

  /**
   * Whenever any client of any run is between its read of an expired hold and
   * its forfeiting write, some continuation without it ends with that write
   * ending a live hold.
   */
  lemma PausedForfeitureCanEndLiveHold(path: string, steps: seq<Step>, c: Client) returns (more: seq<Step>)
    requires var s := Run(Start, path, steps); c in s.clients && s.clients[c].Healing?
    ensures var s := Run(Start, path, steps);
            var s' := Run(s, path, more);
            && c in s'.clients && s'.clients[c] == s.clients[c]
            && EndsLiveHold(s', path, c) && s'.writes >= s.clients[c].at + 2
  {
    var s := Run(Start, path, steps);
    RunKeepsInv(Start, path, steps);
    RunKeepsClean(Start, path, steps);
    var stage := s.clients[c];
    assert StageOk(s, path, stage);
    if s.cell.Some? { WrittenRecordsReadBack(s.cell.value.record); }
    if EndsLiveHold(s, path, c) {
      more := [];
    } else {
      assert s.cell.Some? && s.cell.value.record.tag == Held ==> LeasePassed(s.cell.value.record, Now(stage.op));
      more := NewHold(s, path, Now(stage.op).ms);
    }
    RunKeepsInv(s, path, more);
    EarlyForfeitureIsTwoWritesLater(Run(s, path, more), path, c);
  }

  lemma {:induction false} RunThenStep(s: State, path: string, steps: seq<Step>, step: Step)
    ensures Run(s, path, steps + [step]) == Next(Run(s, path, steps), path, step)
    decreases |steps|
  {
    hide Next;
    if steps == [] {
      assert (steps + [step])[1..] == [];
    } else {
      assert (steps + [step])[1..] == steps[1..] + [step];
      RunThenStep(Next(s, path, steps[0]), path, steps[1..], step);
    }
  }

  /** Read and write of a claim that meets nothing in its way. */
  lemma ClaimRuns(from: State, steps: seq<Step>, path: string, c: Client, op: Op, r: Record) returns (more: seq<Step>)
    requires var s := Run(from, path, steps);
             c !in s.clients && !Corrupt(s.cell) && (s.cell.Some? ==> s.cell.value.record.tag != Held)
    requires Begun(op) && op.Claim? && op.worktree.path == path
    requires var found := Content(Run(from, path, steps).cell);
             Decide(op, found) == Writing(if found.Some? then Some(found.value.tag) else None, "", r)
    ensures var s := Run(from, path, steps);
            Run(from, path, more) == Move(Write(s, r), c, Finished(Done(r)))
  {
    hide Decide, Run, ReadableNow;
    var s := Run(from, path, steps);
    var found := Content(s.cell);
    RunThenStep(from, path, steps, Begin(c, op));
    RunThenStep(from, path, steps + [Begin(c, op)], Go(c));
    RunThenStep(from, path, steps + [Begin(c, op)] + [Go(c)], Go(c));
    more := steps + [Begin(c, op)] + [Go(c)] + [Go(c)];
    assert Next(Move(s, c, Reading(op, 0)), path, Go(c)) ==
           Move(s, c, Putting(op, 0, Decide(op, found), found, s.writes));
  }

  /** A client that reads an expired hold and pauses before forfeiting it. */
  lemma ExpiredReadRuns(from: State, steps: seq<Step>, path: string, c: Client, op: Op, r: Record) returns (more: seq<Step>)
    requires var s := Run(from, path, steps); c !in s.clients && s.cell == Some(Stored(r))
    requires Begun(op) && (op.Claim? ==> op.worktree.path == path)
    requires ReadableNow(r) && LeasePassed(r, Now(op))
    ensures var s := Run(from, path, steps);
            Run(from, path, more) == Move(s, c, Healing(op, 0, r, s.writes))
  {
    hide Decide, Run, LeasePassed, ReadableNow;
    var s := Run(from, path, steps);
    RunThenStep(from, path, steps, Begin(c, op));
    RunThenStep(from, path, steps + [Begin(c, op)], Go(c));
    more := steps + [Begin(c, op)] + [Go(c)];
    assert Next(Move(s, c, Reading(op, 0)), path, Go(c)) == Move(s, c, Healing(op, 0, r, s.writes));
  }

  /** The same client forfeits the hold and takes it over. */
  lemma TakeoverRuns(from: State, steps: seq<Step>, path: string, c: Client, op: Op, r: Record, after: Record)
    returns (more: seq<Step>)
    requires var s := Run(from, path, steps);
             c in s.clients && s.clients[c] == Healing(op, 0, r, s.writes) && s.cell == Some(Stored(r)) && r.tag == Held
    requires Begun(op) && Decide(op, Some(Vacate(r, Forfeited))) == Writing(Some(Forfeited), "", after)
    ensures var s := Run(from, path, steps);
            var s' := Run(from, path, more);
            s'.cell == Some(Stored(after)) && s'.clients == s.clients[c := Finished(Done(after))]
  {
    hide Decide, Run;
    var s := Run(from, path, steps);
    var gone := Vacate(r, Forfeited);
    RunThenStep(from, path, steps, Go(c));
    RunThenStep(from, path, steps + [Go(c)], Go(c));
    more := steps + [Go(c)] + [Go(c)];
    assert Next(s, path, Go(c)) ==
           Move(Write(s, gone), c, Putting(op, 0, Writing(Some(Forfeited), "", after), Some(gone), s.writes + 1));
  }

  /**
   * And it does happen: a status read that pauses over an expired hold ends,
   * with its late forfeiture, the live hold of the successor who took over.
   */
  lemma LateForfeitureEndsLiveHold() returns (steps: seq<Step>, live: Record, now: Stamp)
    ensures var s := Run(Start, "w", steps);
            && s.cell == Some(Stored(live)) && live.tag == Held && WithinLease(live, now)
            && 1 in s.clients && s.clients[1].Healing? && s.clients[1].op == Status(now)
            && Next(s, "w", Go(1)).cell == Some(Stored(Vacate(s.clients[1].record, Forfeited)))
  {
    var w := Worktree("w", "h", "t");
    var first := Claim(w, Custodian("a", "sa"), 0, 1, Undefined);
    var second := Claim(w, Custodian("b", "sb"), 2000, 60, List([Text("f")]));
    var held := Hold(CreateCustody(w), Custodian("a", "sa"), Initial, At(1000), Some(At(0)));
    live := Hold(Vacate(held, Forfeited), Custodian("b", "sb"), Takeover, At(62000), Some(At(2000)));
    now := At(2000);
    assert ValidInventory(second.inventory) by { assert second.inventory.items[0] == Text("f"); }
    assert Decide(first, None) == Writing(None, "", held);
    assert Decide(second, Some(Vacate(held, Forfeited))) == Writing(Some(Forfeited), "", live);
    assert Run(Start, "w", []) == Start;
    WrittenRecordsReadBack(held);
    hide Decide, Run, ValidInventory, ReadableNow;
    steps := ClaimRuns(Start, [], "w", 0, first, held);
    steps := ExpiredReadRuns(Start, steps, "w", 1, Status(now), held);
    steps := ExpiredReadRuns(Start, steps, "w", 2, second, held);
    steps := TakeoverRuns(Start, steps, "w", 2, second, held, live);
  }
}
