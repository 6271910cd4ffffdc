/**
 * The custody store: compare-and-set on the state tag, lazy forfeiture and
 * bounded retries (src/core/custody-store.ts:83-435 and
 * src/mcp-server/lua/custody-conditional-set.lua). First what one operation
 * does alone, and the class that does it; then any number of clients whose
 * reads and writes interleave.
 */
module CustodyStore {
  import opened Options
  import opened CustodyModel

  /** A stored value: not JSON, or a record. */
  datatype Cell = Garbage | Stored(record: Record)

  datatype Op =
    | Claim(worktree: Worktree, custodian: Custodian, clock: int, seconds: int, inventory: Json)
    | Release(session: string, handoff: Handoff, now: Stamp)
    | Status(now: Stamp)

  datatype Answer = Done(record: Record) | NoRecord | Failed(code: Code) | Threw

  /** What a read admits: a record whose every field the code goes on to use. */
  ghost predicate Readable(r: Record) {
    && r.worktree.path != ""
    && (r.tag == Held ==> r.custodian.Some? && r.lease.Some?)
    && (r.tag == Released ==> r.handoff.Some?)
    && (r.handoff.Some? ==> Complete(r.handoff.value))
  }

  predicate ReadableNow(r: Record) {
    && r.worktree.path != ""
    && (r.tag == Held ==> r.custodian.Some? && r.lease.Some?)
    && (r.tag == Released ==> r.handoff.Some?)
    && (r.handoff.Some? ==> Admit(AsInput(r.handoff.value)).Admitted?)
  }

  /** The stored hand-off is admitted again on every read. */
  lemma ReadableNowIsReadable(r: Record)
    ensures ReadableNow(r) <==> Readable(r)
  {
    if r.handoff.Some? {
      var input := AsInput(r.handoff.value);
      if Complete(r.handoff.value) { AdmitAsInput(r.handoff.value); }
      if Admit(input).Admitted? {
        var h := Admit(input).handoff;
        AdmittedIsComplete(input, h);
        SameInputSameHandoff(r.handoff.value, h);
      }
    }
  }

  lemma SameInputSameHandoff(a: Handoff, b: Handoff)
    requires AsInput(a) == AsInput(b)
    ensures a == b
  {
    forall i | 0 <= i < |a.inventory| ensures i < |b.inventory| && a.inventory[i] == b.inventory[i] {
      assert AsInput(a).inventory.items[i] == AsInput(b).inventory.items[i];
    }
    assert |AsInput(a).inventory.items| == |AsInput(b).inventory.items|;
    forall i | 0 <= i < |a.hazards| ensures i < |b.hazards| && a.hazards[i] == b.hazards[i] {
      assert AsInput(a).hazards.items[i] == AsInput(b).hazards.items[i];
    }
    assert |AsInput(a).hazards.items| == |AsInput(b).hazards.items|;
    assert a.dirty == b.dirty by { assert "dirty"[0] != "clean"[0]; }
    assert |"origin"| != |"successor_reconstructed"|;
  }

  /** Every record the store keeps reads back, unless its path is empty. */
  lemma WrittenRecordsReadBack(r: Record)
    requires WellFormed(r)
    ensures ReadableNow(r) <==> r.worktree.path != ""
  {
    ReadableNowIsReadable(r);
  }

  // ------------------------------------------------------- one operation alone

  predicate LeasePassed(r: Record, now: Stamp) {
    r.tag == Held && r.lease.Some? && r.lease.value.At? && now.At? && now.ms > r.lease.value.ms
  }

  /** An expired hold is forfeited before anything is decided. */
  function Heal(r: Record, now: Stamp): Record {
    if LeasePassed(r, now) then Vacate(r, Forfeited) else r
  }

  function Now(op: Op): Stamp {
    match op
    case Claim(_, _, clock, _, _) => At(clock)
    case Release(_, _, now) => now
    case Status(now) => now
  }

  /** The write an operation goes for, with what it expects to replace; or its answer. */
  datatype Choice = Answering(answer: Answer) | Writing(expected: Option<Tag>, session: string, record: Record)

  function WriteOr(o: Outcome, expected: Option<Tag>, session: string): Choice
    requires !o.Raised?
  {
    match o
    case Ok(r) => Writing(expected, session, r)
    case Fail(code) => Answering(Failed(code))
  }

  function DecideClaim(op: Op, found: Option<Record>): Choice
    requires op.Claim?
  {
    var lease, acquired := At(op.clock + op.seconds * 1000), Some(At(op.clock));
    match found
    case None => WriteOr(Transition(CreateCustody(op.worktree), ClaimEvent(op.custodian, lease, acquired)), None, "")
    case Some(r) =>
      if r.tag == Held then Answering(Failed(AlreadyHeld))
      else if r.tag == Forfeited then
        if !ValidInventory(op.inventory) then Answering(Failed(TakeoverRequiresInventory))
        else WriteOr(Transition(r, AssumeEvent(op.custodian, lease, acquired, op.inventory)), Some(r.tag), "")
      else WriteOr(Transition(r, ClaimEvent(op.custodian, lease, acquired)), Some(r.tag), "")
  }

  function DecideRelease(op: Op, found: Option<Record>): Choice
    requires op.Release? && Admit(AsInput(op.handoff)) != Crashed
  {
    if found == None || found.value.tag != Held then Answering(Failed(NotHeld))
    else if found.value.custodian == None || found.value.custodian.value.session != op.session
    then Answering(Failed(NotCustodian))
    else WriteOr(Transition(found.value, ReleaseEvent(AsInput(op.handoff))), Some(Held), op.session)
  }

  /** A release gets this far only with an admitted hand-off. */
  predicate Begun(op: Op) {
    op.Release? ==> Admit(AsInput(op.handoff)).Admitted?
  }

  function Decide(op: Op, found: Option<Record>): Choice
    requires Begun(op)
  {
    match op
    case Claim(_, _, _, _, _) => DecideClaim(op, found)
    case Release(_, _, _) => DecideRelease(op, found)
    case Status(_) => Answering(if found == None then NoRecord else Done(found.value))
  }

  /** The answer once both attempts have lost their race. */
  function LastWord(op: Op, found: Option<Record>): Answer {
    match op
    case Claim(_, _, _, _, _) =>
      Failed(if found.Some? && found.value.tag == Forfeited then ForfeitedRequiresTakeover else AlreadyHeld)
    case Release(session, _, _) =>
      Failed(if found.Some? && found.value.tag == Held &&
                (found.value.custodian == None || found.value.custodian.value.session != session)
             then NotCustodian else NotHeld)
    case Status(_) => NoRecord
  }

  predicate Corrupt(cell: Option<Cell>) {
    cell.Some? && (cell.value == Garbage || !ReadableNow(cell.value.record))
  }

  function Content(cell: Option<Cell>): Option<Record>
    requires !Corrupt(cell)
  {
    if cell == None then None else Some(cell.value.record)
  }

  /** The compare-and-set script on one field: does it write? */
  predicate Matches(cell: Option<Cell>, expected: Option<Tag>, session: string) {
    match cell
    case None => expected == None
    case Some(Garbage) => false
    case Some(Stored(r)) =>
      expected == Some(r.tag) && (session != "" ==> r.custodian.Some? && r.custodian.value.session == session)
  }

  /** An operation nobody interleaves with: the cell it leaves, and its answer. */
  function Alone(op: Op, cell: Option<Cell>): (Option<Cell>, Answer)
    requires Begun(op)
  {
    if Corrupt(cell) then (cell, Failed(StoreCorrupt)) else
    var found := Content(cell);
    var healed := if found.Some? then Some(Heal(found.value, Now(op))) else None;
    match Decide(op, healed)
    case Answering(a) => (if healed.Some? then Some(Stored(healed.value)) else None, a)
    case Writing(_, _, r) => (Some(Stored(r)), Done(r))
  }

  // What an operation alone answers and leaves, by the fields of the record it
  // meets and the operation's own clock.

  /** now is not past the end of r's lease; what is no date is never past anything. */
  predicate WithinLease(r: Record, now: Stamp) {
    r.lease.Some? && r.lease.value.At? && now.At? ==> now.ms <= r.lease.value.ms
  }

  /** r is held by the custodian under the lease a claim at clock asks for. */
  predicate HeldBy(r: Record, op: Op, mode: Mode)
    requires op.Claim?
  {
    && r.tag == Held && r.custodian == Some(op.custodian) && r.mode == Some(mode)
    && r.lease == Some(At(op.clock + op.seconds * 1000)) && r.acquired == Some(At(op.clock))
  }

  /** Up to its lease a hold is refused to every claim; past it, it goes to a valid custodian with an inventory by takeover, and is forfeited otherwise. */
  lemma ClaimOfHold(op: Op, r: Record)
    requires op.Claim? && WellFormed(r) && r.tag == Held && r.worktree.path != ""
    ensures var (cell, answer) := Alone(op, Some(Stored(r)));
            && (WithinLease(r, At(op.clock)) ==> answer == Failed(AlreadyHeld) && cell == Some(Stored(r)))
            && (!WithinLease(r, At(op.clock)) ==>
                  if !ValidInventory(op.inventory) || !ValidCustodian(op.custodian)
                  then answer == Failed(if ValidInventory(op.inventory) then InvalidCustodian else TakeoverRequiresInventory) &&
                       cell == Some(Stored(r.(tag := Forfeited, custodian := None, mode := None, lease := None, acquired := None)))
                  else answer.Done? && cell == Some(Stored(answer.record)) && HeldBy(answer.record, op, Takeover) &&
                       answer.record.worktree == r.worktree && answer.record.handoff == r.handoff)
  {
    WrittenRecordsReadBack(r);
    hide ReadableNow;
  }

  /** A forfeited record asks for an inventory too; any other vacant record, or none, only for a valid custodian. */
  lemma ClaimOfVacant(op: Op, found: Option<Record>)
    requires op.Claim? && (found.Some? ==> WellFormed(found.value) && found.value.tag != Held && found.value.worktree.path != "")
    ensures var before: Option<Cell> := if found == None then None else Some(Stored(found.value));
            var (cell, answer) := Alone(op, before);
            var takeover := found.Some? && found.value.tag == Forfeited;
            if takeover && !ValidInventory(op.inventory) then answer == Failed(TakeoverRequiresInventory) && cell == before
            else if !ValidCustodian(op.custodian) then answer == Failed(InvalidCustodian) && cell == before
            else answer.Done? && cell == Some(Stored(answer.record)) &&
                 HeldBy(answer.record, op, if takeover then Takeover
                                           else if found.Some? && found.value.tag == Released then Graceful else Initial) &&
                 answer.record.worktree == (if found.Some? then found.value.worktree else op.worktree) &&
                 answer.record.handoff == (if found.Some? then found.value.handoff else None)
  {
    if found.Some? { WrittenRecordsReadBack(found.value); }
    hide ReadableNow;
  }

  /** Only the session that holds it, and within its lease, releases a record, and leaves it vacant with the hand-off. */
  lemma ReleaseOf(op: Op, found: Option<Record>)
    requires op.Release? && Begun(op) && (found.Some? ==> WellFormed(found.value) && found.value.worktree.path != "")
    ensures var before: Option<Cell> := if found == None then None else Some(Stored(found.value));
            var (cell, answer) := Alone(op, before);
            if found == None || found.value.tag != Held then answer == Failed(NotHeld) && cell == before
            else var r := found.value;
                 var vacant := r.(custodian := None, mode := None, lease := None, acquired := None);
                 if !WithinLease(r, op.now) then answer == Failed(NotHeld) && cell == Some(Stored(vacant.(tag := Forfeited)))
                 else if r.custodian.value.session != op.session then answer == Failed(NotCustodian) && cell == before
                 else answer == Done(vacant.(tag := Released, handoff := Some(op.handoff))) && cell == Some(Stored(answer.record))
  {
    if found.Some? { WrittenRecordsReadBack(found.value); }
    AdmittedIsComplete(AsInput(op.handoff), Admit(AsInput(op.handoff)).handoff);
    SameInputSameHandoff(op.handoff, Admit(AsInput(op.handoff)).handoff);
    hide ReadableNow, AsInput;
  }

  /** Status shows the record; one held past its lease it forfeits first. */
  lemma StatusOf(now: Stamp, found: Option<Record>)
    requires found.Some? ==> WellFormed(found.value) && found.value.worktree.path != ""
    ensures var before: Option<Cell> := if found == None then None else Some(Stored(found.value));
            var (cell, answer) := Alone(Status(now), before);
            if found == None then answer == NoRecord && cell == None
            else answer.Done? && cell == Some(Stored(answer.record)) &&
                 answer.record == if found.value.tag == Held && !WithinLease(found.value, now)
                                  then found.value.(tag := Forfeited, custodian := None, mode := None, lease := None, acquired := None)
                                  else found.value
  {
    if found.Some? { WrittenRecordsReadBack(found.value); }
    hide ReadableNow;
  }

  /** After two lost races the answer names what the last read found in the way. */
  lemma LastWordNamesTheObstacle(op: Op, found: Option<Record>)
    ensures op.Claim? ==> (LastWord(op, found) == Failed(ForfeitedRequiresTakeover) <==> found.Some? && found.value.tag == Forfeited)
    ensures op.Claim? ==> LastWord(op, found) in {Failed(ForfeitedRequiresTakeover), Failed(AlreadyHeld)}
    ensures op.Release? ==> (LastWord(op, found) == Failed(NotCustodian) <==>
              found.Some? && found.value.tag == Held && (found.value.custodian.Some? ==> found.value.custodian.value.session != op.session))
    ensures op.Release? ==> LastWord(op, found) in {Failed(NotCustodian), Failed(NotHeld)}
  {
  }

  /** A claim of an empty path succeeds, and from then on nobody can read what it stored. */
  lemma EmptyPathIsClaimedThenCorrupt(custodian: Custodian, head: string, tree: string, clock: int, seconds: int, later: Op)
    requires ValidCustodian(custodian) && Begun(later)
    ensures var (cell, answer) := Alone(Claim(Worktree("", head, tree), custodian, clock, seconds, Undefined), None);
            && answer.Done? && cell == Some(Stored(answer.record))
            && Alone(later, cell) == (cell, Failed(StoreCorrupt))
  {
    var r := Hold(CreateCustody(Worktree("", head, tree)), custodian, Initial, At(clock + seconds * 1000), Some(At(clock)));
    assert DecideClaim(Claim(Worktree("", head, tree), custodian, clock, seconds, Undefined), None) == Writing(None, "", r);
  }

  /** What a successful operation has made of the record. */
  predicate Achieves(op: Op, r: Record) {
    match op
    case Claim(_, custodian, clock, seconds, _) =>
      r.tag == Held && r.custodian == Some(custodian) && r.lease == Some(At(clock + seconds * 1000))
    case Release(_, handoff, _) => r.tag == Released && r.custodian == None && r.handoff == Some(handoff)
    case Status(_) => true
  }

  lemma DecisionAchieves(op: Op, found: Option<Record>)
    requires Begun(op)
    ensures Decide(op, found).Writing? ==>
              Achieves(op, Decide(op, found).record) &&
              (Decide(op, found).record.worktree == if found.Some? then found.value.worktree else op.worktree)
    ensures Decide(op, found).Writing? && found == None ==> op.Claim?
    ensures Decide(op, found).Answering? && !op.Status? ==> Decide(op, found).answer.Failed?
  {
    if op.Release? {
      AdmittedIsComplete(AsInput(op.handoff), Admit(AsInput(op.handoff)).handoff);
      SameInputSameHandoff(op.handoff, Admit(AsInput(op.handoff)).handoff);
    }
  }

  /** Alone, the first attempt's write never loses its race. */
  lemma AloneNeverRetries(op: Op, cell: Option<Cell>)
    requires Begun(op) && !Corrupt(cell)
    ensures var healed := if cell.Some? then Some(Heal(Content(cell).value, Now(op))) else None;
            var c := Decide(op, healed);
            c.Writing? ==> Matches(if healed.Some? then Some(Stored(healed.value)) else None, c.expected, c.session)
  {
  }

  /** What the operation alone would answer on some state of the field. */
  ghost predicate AnswersAsAlone(op: Op, answer: Answer)
    requires Begun(op)
  {
    exists cell :: answer == Alone(op, cell).1
  }

  /** The answer after lost races: as alone on what the last attempt read, or, after two, as the last read has it. */
  ghost predicate AnswersAfter(op: Op, lost: nat, answer: Answer)
    requires Begun(op)
  {
    lost <= 2 &&
    if lost < 2 then AnswersAsAlone(op, answer)
    else exists cell :: answer == if Corrupt(cell) then Failed(StoreCorrupt) else LastWord(op, Content(cell))
  }

  class CustodyStore {
    var records: map<string, Cell>
    /** No other client is at work. */
    const alone: bool

    constructor (alone: bool)
      ensures records == map[] && this.alone == alone
    {
      records, this.alone := map[], alone;
    }

    /** Every stored record names the path it is stored under. */
    predicate Valid()
      reads this
    {
      forall p :: p in records && records[p].Stored? ==> records[p].record.worktree.path == p
    }

    /** Whatever other clients do before the next command arrives. */
    method Others()
      requires Valid()
      modifies this
      ensures Valid() && (alone ==> records == old(records))
    {
      if !alone {
        var theirs: map<string, Cell> :| forall p :: p in theirs && theirs[p].Stored? ==> theirs[p].record.worktree.path == p;
        records := theirs;
      }
    }

    method ReadRecord(path: string) returns (cell: Option<Cell>)
      requires Valid()
      modifies this
      ensures Valid() && cell == Lookup(records, path) && (alone ==> records == old(records))
    {
      Others();
      cell := Lookup(records, path);
    }

    /** met is what the command finds the records to be. */
    method ConditionalSet(path: string, value: Record, expected: Option<Tag>, session: string)
      returns (ok: bool, ghost met: map<string, Cell>)
      requires Valid() && value.worktree.path == path
      modifies this
      ensures Valid() && (alone ==> met == old(records))
      ensures ok <==> Matches(Lookup(met, path), expected, session)
      ensures records == if ok then met[path := Stored(value)] else met
    {
      Others();
      met := records;
      var cell := Lookup(records, path);
      if !Matches(cell, expected, session) { return false, met; }
      records := records[path := Stored(value)];
      ok := true;
    }

    method LazyExpire(r: Record, now: Stamp) returns (healed: Record)
      requires Valid()
      modifies this
      ensures Valid() && healed == Heal(r, now)
      ensures !(r.tag == Held && !WithinLease(r, now)) ==> healed == r && records == old(records)
      ensures alone && Lookup(old(records), r.worktree.path) == Some(Stored(r)) ==>
                records == old(records)[r.worktree.path := Stored(healed)]
    {
      healed := r;
      if LeasePassed(r, now) {
        healed := Vacate(r, Forfeited);
        var ok, met := ConditionalSet(r.worktree.path, healed, Some(Held), "");
      } else {
        assert Lookup(records, r.worktree.path) == Some(Stored(r)) ==> records == records[r.worktree.path := Stored(r)];
      }
    }

    /** The clock must be a date, for the lease is computed from it. */
    method PerformClaim(worktree: Worktree, custodian: Custodian, now: Stamp, seconds: int, inventory: Json)
      returns (answer: Answer, lost: nat)
      requires Valid()
      modifies this
      ensures Valid()
      ensures !now.At? ==> answer == Threw && records == old(records)
      ensures now.At? ==> AnswersAfter(Claim(worktree, custodian, now.ms, seconds, inventory), lost, answer)
      ensures now.At? ==>
                var op := Claim(worktree, custodian, now.ms, seconds, inventory);
                var after := Alone(op, Lookup(old(records), worktree.path));
                && (alone ==> answer == after.1 && records == Put(old(records), worktree.path, after.0))
                && (answer.Done? ==> Achieves(op, answer.record) && Lookup(records, worktree.path) == Some(Stored(answer.record)))
    {
      if !now.At? { return Threw, 0; }
      answer, lost := Perform(Claim(worktree, custodian, now.ms, seconds, inventory), worktree.path);
    }

    /** The hand-off is admitted before the store is read. */
    method PerformRelease(path: string, session: string, input: Input, now: Stamp) returns (answer: Answer, lost: nat)
      requires Valid()
      modifies this
      ensures Valid()
      ensures Admit(input).Refused? ==> answer == Failed(Admit(input).code) && records == old(records)
      ensures Admit(input).Crashed? ==> answer == Threw && records == old(records)
      ensures Admit(input).Admitted? ==>
                var op := Release(session, Admit(input).handoff, now);
                Begun(op) && AnswersAfter(op, lost, answer) &&
                var after := Alone(op, Lookup(old(records), path));
                && (alone ==> answer == after.1 && records == Put(old(records), path, after.0))
                && (answer.Done? ==> Achieves(op, answer.record) && Lookup(records, path) == Some(Stored(answer.record)))
    {
      match Admit(input)
      case Refused(code) => return Failed(code), 0;
      case Crashed => return Threw, 0;
      case Admitted(h) =>
        AdmittedIsComplete(input, h);
        answer, lost := Perform(Release(session, h, now), path);
    }

    /** One attempt: read, heal, decide, write; None when the write lost its race. */
    method Attempt(op: Op, path: string) returns (answer: Option<Answer>)
      requires Valid() && Begun(op) && !op.Status?
      requires op.Claim? ==> op.worktree.path == path
      modifies this
      ensures Valid()
      ensures alone ==> answer == Some(Alone(op, Lookup(old(records), path)).1)
      ensures alone ==> records == Put(old(records), path, Alone(op, Lookup(old(records), path)).0)
      ensures answer.Some? && answer.value.Done? ==>
                Achieves(op, answer.value.record) && Lookup(records, path) == Some(Stored(answer.value.record))
      ensures answer.Some? ==> AnswersAsAlone(op, answer.value)
    {
      hide Decide, ReadableNow, LeasePassed, Achieves, Matches;
      var cell := ReadRecord(path);
      ghost var after := Alone(op, cell).1;
      if Corrupt(cell) { return Some(Failed(StoreCorrupt)); }
      var found := Content(cell);
      AloneNeverRetries(op, cell);
      if found.Some? {
        assert found.value.worktree.path == path;
        var healed := LazyExpire(found.value, Now(op));
        found := Some(healed);
        assert found.value.worktree.path == path;
      }
      DecisionAchieves(op, found);
      var choice := Decide(op, found);
      assert after == if choice.Answering? then choice.answer else Done(choice.record);
      if choice.Answering? { return Some(choice.answer); }
      var ok, met := ConditionalSet(path, choice.record, choice.expected, choice.session);
      return if ok then Some(Done(choice.record)) else None;
    }

    /**
     * The loop that claim and release share, and how many of its two attempts
     * lost their race. Alone it does what Alone says; among others, a success
     * still means the record was written, and any other answer is right for
     * what was read last.
     */
    method Perform(op: Op, path: string) returns (answer: Answer, lost: nat)
      requires Valid() && Begun(op) && !op.Status?
      requires op.Claim? ==> op.worktree.path == path
      modifies this
      ensures Valid()
      ensures alone ==> answer == Alone(op, Lookup(old(records), path)).1
      ensures alone ==> records == Put(old(records), path, Alone(op, Lookup(old(records), path)).0)
      ensures answer.Done? ==> Achieves(op, answer.record) && Lookup(records, path) == Some(Stored(answer.record))
      ensures AnswersAfter(op, lost, answer) && (alone ==> lost == 0)
    {
      hide Achieves, Alone, AnswersAsAlone;
      lost := 0;
      while lost < 2
        invariant Valid() && lost <= 2
        invariant alone ==> records == old(records) && lost == 0
      {
        var outcome := Attempt(op, path);
        if outcome.Some? { return outcome.value, lost; }
        lost := lost + 1;
      }
      var cell := ReadRecord(path);
      if Corrupt(cell) { return Failed(StoreCorrupt), lost; }
      return LastWord(op, Content(cell)), lost;
    }

    /** Reads one record, forfeiting it if its lease has passed. */
    method PerformStatus(path: string, now: Stamp) returns (answer: Answer)
      requires Valid()
      modifies this
      ensures Valid()
      ensures alone ==> answer == Alone(Status(now), Lookup(old(records), path)).1
      ensures alone ==> records == Put(old(records), path, Alone(Status(now), Lookup(old(records), path)).0)
      ensures AnswersAsAlone(Status(now), answer)
    {
      var cell := ReadRecord(path);
      ghost var after := Alone(Status(now), cell).1;
      if Corrupt(cell) { return Failed(StoreCorrupt); }
      if cell == None { return NoRecord; }
      var healed := LazyExpire(cell.value.record, now);
      assert after == Done(healed);
      return Done(healed);
    }
  }
}
