/**
 * Inbox activation: the durable record, the owner-fenced store, one reconcile
 * pass of the dispatcher, and the decisions of the three native adapters
 * (src/registered-shell/activation-store.ts, inbox-dispatcher.ts and the
 * codex, opencode and pi runtimes). Ids and operation hashes are abstract;
 * operation ids depend on the messages as a bag and on the attempt.
 */
module Activation {
  import opened Options

  type MessageId = string
  type Token = nat

  /** activationOperationId: an injective hash of the sorted ids and the attempt. */
  datatype Op = Op(ids: multiset<MessageId>, attempt: nat)

  datatype RecordState = Pending | Submitting | Accepted | Ambiguous | Exhausted

  /**
   * life numbers the createRecord calls; the code has only created_at. after
   * is the operation whose end brought the record about; the code keeps no
   * note of it, and nothing is decided by it.
   */
  datatype Record = Record(life: nat, op: Op, ids: seq<MessageId>, attempt: nat, state: RecordState, after: Option<Op>)

  datatype Outcome = Started | Queued | Completed | Busy | Unavailable | Uncertain | Threw

  function CreateRecord(life: nat, ids: seq<MessageId>, attempt: nat): Record {
    Record(life, Op(multiset(ids), attempt), ids, attempt, Pending, None)
  }

  /** None of the record's messages is pending, or new work joins an exhausted one. */
  predicate Outdated(r: Record, pending: seq<MessageId>) {
    || (forall id :: id in r.ids ==> id !in pending)
    || (r.state == Exhausted && exists id :: id in pending && id !in r.ids)
  }

  /** What the dispatcher saves once the adapter has answered. */
  function AfterOutcome(r: Record, pending: seq<MessageId>, outcome: Outcome, maximum: int, life: nat): Record
    requires outcome != Threw
  {
    match outcome
    case Started => r.(state := Accepted)
    case Queued => r.(state := Accepted)
    case Completed =>
      if r.attempt < maximum then CreateRecord(life, pending, r.attempt + 1).(after := Some(r.op)) else r.(state := Exhausted)
    case Busy => r
    case Unavailable => r
    case Uncertain => r.(state := Ambiguous)
  }

  // ----------------------------------------------------------- fenced store

  /** The two Redis keys of one agent's activation. */
  class ActivationKeys {
    var owner: Option<Token>
    var record: Option<Record>

    constructor ()
      ensures owner == None && record == None
    {
      owner, record := None, None;
    }
  }

  class ActivationStore {
    const token: Token
    const keys: ActivationKeys
    var attached: bool

    constructor (token: Token, keys: ActivationKeys)
      ensures this.token == token && this.keys == keys && !attached
    {
      this.token, this.keys, attached := token, keys, false;
    }

    predicate Owns()
      reads this, keys
    {
      attached && keys.owner == Some(token)
    }

    /** SET NX: fails while any owner key lives. */
    method Attach() returns (ok: bool)
      modifies this, keys`owner
      ensures ok <==> old(keys.owner) == None
      ensures if ok then Owns() else keys.owner == old(keys.owner) && attached == old(attached)
    {
      if keys.owner != None { return false; }
      keys.owner := Some(token);
      attached := true;
      return true;
    }

    method Refresh() returns (ok: bool)
      ensures ok <==> Owns()
    {
      ok := attached && keys.owner == Some(token);
    }

    method Current() returns (r: Option<Record>)
      ensures r == keys.record
    {
      r := keys.record;
    }

    /** Writes the record, or deletes it, only as the current owner. */
    method Save(r: Option<Record>) returns (ok: bool)
      modifies keys`record
      ensures ok <==> Owns()
      ensures keys.record == if ok then r else old(keys.record)
    {
      if !attached || keys.owner != Some(token) { return false; }
      keys.record := r;
      return true;
    }

    method Detach()
      modifies this, keys`owner
      ensures keys.owner == if old(Owns()) then None else old(keys.owner)
      ensures !attached
    {
      if attached && keys.owner == Some(token) { keys.owner := None; }
      attached := false;
    }
  }

  // ------------------------------------------------- one pass, undisturbed

  /** What one reconcile pass meets besides the record. */
  datatype Pass = Pass(pending: seq<MessageId>, claimed: bool, deferred: bool, outcome: Outcome)

  /** The record after a pass, and the operation it submitted afresh. */
  datatype Passed = Passed(record: Option<Record>, submitted: Option<Op>)

  function Submit(r: Record, pass: Pass, maximum: int, life: nat): Passed {
    if r.state == Exhausted || pass.deferred then Passed(Some(r), None) else
    var submitted := if r.state == Pending then Some(r.op) else None;
    Passed(Some(if pass.outcome == Threw
                then if r.state == Pending then r.(state := Submitting) else r
                else AfterOutcome(r, pass.pending, pass.outcome, maximum, life)),
           submitted)
  }

  /** reconcile() by an owner nobody disturbs; life and life + 1 name the records it may create. */
  function Reconcile(record: Option<Record>, pass: Pass, maximum: int, life: nat): Passed {
    var kept := if pass.pending == [] || (record.Some? && Outdated(record.value, pass.pending)) then None else record;
    if pass.pending == [] || pass.claimed then Passed(kept, None)
    else if kept.Some? then Submit(kept.value, pass, maximum, life)
    else Submit(CreateRecord(life, pass.pending, 1), pass, maximum, life + 1)
  }

  class InboxDispatcher {
    const store: ActivationStore
    const maximum: int
    const interval: nat
    const maxBackoff: nat
    var backoff: nat
    var retryAt: int
    var stopped: bool

    constructor (store: ActivationStore, maximum: int, interval: nat, maxBackoff: nat)
      ensures this.store == store && this.maximum == maximum && this.interval == interval
      ensures this.maxBackoff == (if maxBackoff < interval then interval else maxBackoff)
      ensures backoff == 0 && retryAt == 0 && !stopped
    {
      this.store, this.maximum, this.interval := store, maximum, interval;
      this.maxBackoff := if maxBackoff < interval then interval else maxBackoff;
      backoff, retryAt, stopped := 0, 0, false;
    }

    /** The backoff, and the time before which no call is made: doubled by every deferral up to the maximum, and cleared by any other answer. */
    function Delay(outcome: Outcome, was: nat, now: int): (d: (nat, int))
      reads this
      ensures outcome == Busy || outcome == Unavailable ==>
                d.1 == now + d.0 && d.0 <= maxBackoff &&
                (interval <= maxBackoff && was <= maxBackoff ==> interval <= d.0 && was <= d.0) &&
                (d.0 == maxBackoff || d.0 == interval || d.0 == 2 * was) && (d.0 < 2 * was ==> d.0 == maxBackoff)
      ensures outcome != Busy && outcome != Unavailable ==> d == (0, 0)
    {
      var next := if was * 2 < interval then interval else was * 2;
      var capped := if next > maxBackoff then maxBackoff else next;
      if outcome == Busy || outcome == Unavailable then (capped, now + capped) else (0, 0)
    }

    method PutOff(outcome: Outcome, now: int)
      requires outcome != Threw
      modifies this`backoff, this`retryAt
      ensures (backoff, retryAt) == Delay(outcome, old(backoff), now)
    {
      var deferred := outcome == Busy || outcome == Unavailable;
      if deferred {
        backoff := if backoff * 2 < interval then interval else backoff * 2;
        backoff := if backoff > maxBackoff then maxBackoff else backoff;
        retryAt := now + backoff;
      } else {
        backoff, retryAt := 0, 0;
      }
    }

    /**
     * One reconcile pass. now is the clock, outcome what the adapter would
     * answer; the result says whether, and how, the adapter was called.
     */
    method ReconcileOnce(pending: seq<MessageId>, claimed: bool, now: int, outcome: Outcome, life: nat)
      returns (submitted: Option<Op>)
      requires interval <= maxBackoff && backoff <= maxBackoff
      modifies this, store.keys`record
      ensures backoff <= maxBackoff
      ensures !old(store.Owns()) ==> stopped && submitted == None && store.keys.record == old(store.keys.record)
      ensures old(store.Owns()) ==>
                Passed(store.keys.record, submitted) ==
                Reconcile(old(store.keys.record), Pass(pending, claimed, now < old(retryAt), outcome), maximum, life)
      ensures old(store.Owns()) ==> stopped == old(stopped)
      ensures retryAt != old(retryAt) ==> retryAt == 0 || now + interval <= retryAt <= now + maxBackoff
      ensures if old(store.Owns() && Calls(store.keys.record, Pass(pending, claimed, now < retryAt, outcome))) && outcome != Threw
              then (backoff, retryAt) == Delay(outcome, old(backoff), now)
              else (backoff, retryAt) == (old(backoff), old(retryAt))
    {
      hide Outdated, AfterOutcome, Delay;
      submitted := None;
      var owned := store.Refresh();
      if !owned { stopped := true; return; }
      var record := store.Current();
      if |pending| == 0 || (record.Some? && Outdated(record.value, pending)) {
        var saved := store.Save(None);
        record := None;
      }
      if |pending| == 0 || claimed { return; }
      var next := life;
      if record == None {
        record := Some(CreateRecord(life, pending, 1));
        next := life + 1;
        var saved := store.Save(record);
      }
      var r := record.value;
      if r.state == Exhausted || now < retryAt { return; }
      var recovery := r.state != Pending;
      if !recovery {
        var saved := store.Save(Some(r.(state := Submitting)));
        submitted := Some(r.op);
      }
      if outcome == Threw { return; }
      PutOff(outcome, now);
      var saved := store.Save(Some(AfterOutcome(r, pending, outcome, maximum, next)));
    }
  }

  // ------------------------------------------------- attempts are bounded

  function Limit(maximum: int): nat {
    if maximum < 1 then 1 else maximum
  }

  ghost predicate RecordOk(record: Option<Record>, maximum: int) {
    record.Some? ==>
      var r := record.value;
      && 1 <= r.attempt <= Limit(maximum) && r.ids != [] && r.op == Op(multiset(r.ids), r.attempt)
      && (r.state == Exhausted ==> r.attempt == Limit(maximum))
  }

  function Passes(record: Option<Record>, passes: seq<Pass>, maximum: int, life: nat): Option<Record>
    decreases |passes|
  {
    if passes == [] then record
    else Passes(Reconcile(record, passes[0], maximum, life).record, passes[1..], maximum, life + 2)
  }

  function Listed(op: Option<Op>): seq<Op> {
    if op.Some? then [op.value] else []
  }

  /** The operations freshly submitted, in order. */
  function Submissions(record: Option<Record>, passes: seq<Pass>, maximum: int, life: nat): seq<Op>
    decreases |passes|
  {
    if passes == [] then [] else
    var p := Reconcile(record, passes[0], maximum, life);
    Listed(p.submitted) + Submissions(p.record, passes[1..], maximum, life + 2)
  }

  lemma OutcomeKeepsRecordOk(r: Record, pending: seq<MessageId>, outcome: Outcome, maximum: int, life: nat)
    requires RecordOk(Some(r), maximum) && r.state != Exhausted && pending != [] && outcome != Threw
    ensures RecordOk(Some(AfterOutcome(r, pending, outcome, maximum, life)), maximum)
  {
  }

  lemma PassKeepsRecordOk(record: Option<Record>, pass: Pass, maximum: int, life: nat)
    requires RecordOk(record, maximum)
    ensures RecordOk(Reconcile(record, pass, maximum, life).record, maximum)
  {
    hide Outdated, AfterOutcome;
    if pass.pending != [] && !pass.claimed {
      var kept := if record.Some? && Outdated(record.value, pass.pending) then None else record;
      var r := if kept.Some? then kept.value else CreateRecord(life, pass.pending, 1);
      if r.state != Exhausted && pass.outcome != Threw {
        OutcomeKeepsRecordOk(r, pass.pending, pass.outcome, maximum, if kept.Some? then life else life + 1);
      }
    }
  }

  /** Attempts stay within their bounds whatever the passes meet. */
  lemma {:induction false} AttemptsStayInRange(record: Option<Record>, passes: seq<Pass>, maximum: int, life: nat)
    requires RecordOk(record, maximum)
    ensures RecordOk(Passes(record, passes, maximum, life), maximum)
    decreases |passes|
  {
    hide Reconcile, RecordOk;
    if passes != [] {
      PassKeepsRecordOk(record, passes[0], maximum, life);
      AttemptsStayInRange(Reconcile(record, passes[0], maximum, life).record, passes[1..], maximum, life + 2);
    }
  }

  /** The pass comes as far as the adapter. */
  predicate Calls(record: Option<Record>, pass: Pass) {
    && pass.pending != [] && !pass.claimed && !pass.deferred
    && (record.Some? && !Outdated(record.value, pass.pending) ==> record.value.state != Exhausted)
  }

  function Ended(record: Option<Record>, pass: Pass): nat {
    if Calls(record, pass) && pass.outcome == Completed then 1 else 0
  }

  /** How many calls answered that their turn had ended. */
  function CompletedCalls(record: Option<Record>, passes: seq<Pass>, maximum: int, life: nat): nat
    decreases |passes|
  {
    if passes == [] then 0 else
    Ended(record, passes[0]) + CompletedCalls(Reconcile(record, passes[0], maximum, life).record, passes[1..], maximum, life + 2)
  }

  /** The operations of the first n attempts on the messages. */
  function Ops(ids: multiset<MessageId>, n: nat): set<Op> {
    if n == 0 then {} else Ops(ids, n - 1) + {Op(ids, n)}
  }

  lemma {:induction false} OpsAreDistinct(ids: multiset<MessageId>, n: nat)
    ensures |Ops(ids, n)| == n
    ensures forall op :: op in Ops(ids, n) <==> op.ids == ids && 1 <= op.attempt <= n
  {
    if n > 0 {
      OpsAreDistinct(ids, n - 1);
      assert Op(ids, n) !in Ops(ids, n - 1);
    }
  }

  function OpSet(ops: seq<Op>): set<Op> {
    set op | op in ops
  }

  /**
   * Where a record stands after done completed calls, with sent submitted so
   * far: the attempt under way is the next one, its operation certainly
   * submitted once it is no longer pending, and all earlier ones were.
   */
  ghost predicate Stands(record: Option<Record>, ids: multiset<MessageId>, maximum: int, done: nat, sent: set<Op>) {
    match record
    case None => done == 0 && sent == {}
    case Some(r) =>
      && multiset(r.ids) == ids && r.op == Op(ids, r.attempt) && 1 <= r.attempt <= Limit(maximum)
      && (if r.state == Exhausted then done == r.attempt == Limit(maximum) && sent == Ops(ids, done)
          else r.attempt == done + 1 &&
               (sent == Ops(ids, done + 1) || (r.state == Pending && sent == Ops(ids, done))))
  }

  lemma SameMessages(r: Record, pending: seq<MessageId>)
    requires multiset(r.ids) == multiset(pending) && pending != []
    ensures !Outdated(r, pending) && r.ids != []
  {
    assert |r.ids| == |multiset(r.ids)| == |pending|;
    forall id ensures id in r.ids <==> id in pending {
      assert id in multiset(r.ids) <==> id in multiset(pending);
    }
    assert r.ids[0] in r.ids;
  }

  lemma AnswerStands(r: Record, pass: Pass, maximum: int, life: nat, done: nat, sent: set<Op>)
    requires Stands(Some(r), multiset(pass.pending), maximum, done, sent) && r.state != Exhausted && pass.outcome != Threw
    requires r.state != Pending || sent == Ops(multiset(pass.pending), done + 1)
    ensures Stands(Some(AfterOutcome(r, pass.pending, pass.outcome, maximum, life)), multiset(pass.pending), maximum,
                   done + (if pass.outcome == Completed then 1 else 0), sent)
  {
  }

  lemma CallStands(r: Record, pass: Pass, maximum: int, life: nat, done: nat, sent: set<Op>)
    requires Stands(Some(r), multiset(pass.pending), maximum, done, sent) && r.state != Exhausted && !pass.deferred
    ensures var p := Submit(r, pass, maximum, life);
            Stands(p.record, multiset(pass.pending), maximum,
                   done + (if pass.outcome == Completed then 1 else 0), sent + AsSet(p.submitted))
  {
    var ids := multiset(pass.pending);
    var now := sent + AsSet(Submit(r, pass, maximum, life).submitted);
    assert Ops(ids, done + 1) == Ops(ids, done) + {Op(ids, done + 1)};
    assert now == Ops(ids, done + 1) && Stands(Some(r), ids, maximum, done, now);
    if pass.outcome != Threw {
      AnswerStands(r, pass, maximum, life, done, now);
      hide Stands, AfterOutcome, Ops;
    }
  }

  lemma PassStands(record: Option<Record>, pass: Pass, maximum: int, life: nat, done: nat, sent: set<Op>)
    requires pass.pending != [] && Stands(record, multiset(pass.pending), maximum, done, sent)
    ensures var p := Reconcile(record, pass, maximum, life);
            Stands(p.record, multiset(pass.pending), maximum,
                   done + Ended(record, pass), sent + AsSet(p.submitted))
  {
    var r := if record.Some? then record.value else CreateRecord(life, pass.pending, 1);
    if record.Some? { SameMessages(r, pass.pending); }
    assert sent + {} == sent;
    if !pass.claimed {
      assert Stands(Some(r), multiset(pass.pending), maximum, done, sent);
      hide Outdated, Stands;
      if r.state != Exhausted && !pass.deferred {
        assert Calls(record, pass);
        CallStands(r, pass, maximum, if record.Some? then life else life + 1, done, sent);
      }
    }
  }

  function AsSet(op: Option<Op>): set<Op> {
    if op.Some? then {op.value} else {}
  }

  lemma OpSetGrows(sent: set<Op>, op: Option<Op>, later: seq<Op>)
    ensures sent + OpSet(Listed(op) + later) == (sent + AsSet(op)) + OpSet(later)
  {
    if op.Some? {
      assert forall x :: x in [op.value] + later <==> x == op.value || x in later;
    } else {
      assert [] + later == later;
    }
  }

  lemma {:induction false} RunStands(record: Option<Record>, passes: seq<Pass>, ids: multiset<MessageId>, maximum: int, life: nat, done: nat, sent: set<Op>)
    requires Stands(record, ids, maximum, done, sent)
    requires forall i :: 0 <= i < |passes| ==> passes[i].pending != [] && multiset(passes[i].pending) == ids
    ensures Stands(Passes(record, passes, maximum, life), ids, maximum,
                   done + CompletedCalls(record, passes, maximum, life),
                   sent + OpSet(Submissions(record, passes, maximum, life)))
    decreases |passes|
  {
    hide Stands, Reconcile, Ended, Listed, AsSet, Outdated;
    if passes == [] {
      assert sent + OpSet([]) == sent;
    } else {
      hide OpSet;
      var p := Reconcile(record, passes[0], maximum, life);
      PassStands(record, passes[0], maximum, life, done, sent);
      RunStands(p.record, passes[1..], ids, maximum, life + 2, done + Ended(record, passes[0]), sent + AsSet(p.submitted));
      OpSetGrows(sent, p.submitted, Submissions(p.record, passes[1..], maximum, life + 2));
    }
  }

  lemma StandsSays(record: Option<Record>, ids: multiset<MessageId>, maximum: int, done: nat, sent: set<Op>)
    requires Stands(record, ids, maximum, done, sent)
    ensures Ops(ids, done) <= sent <= Ops(ids, Limit(maximum)) && |Ops(ids, Limit(maximum))| == Limit(maximum)
    ensures done <= Limit(maximum)
    ensures record.Some? && record.value.state == Exhausted <==> done == Limit(maximum)
    ensures done == Limit(maximum) ==> sent == Ops(ids, Limit(maximum))
  {
    OpsAreDistinct(ids, Limit(maximum));
    OpsAreDistinct(ids, done);
    OpsAreDistinct(ids, done + 1);
  }

  /**
   * While the same messages stay queued, and whatever each pass meets and the
   * adapter answers, in any order: every operation submitted is one of the
   * first maximum attempts on them; the record is exhausted exactly when that
   * many calls have answered that their turn ended; and then exactly those
   * operations have been submitted, all different.
   */
  lemma ActivationAttemptsTerminate(passes: seq<Pass>, ids: multiset<MessageId>, maximum: int, life: nat)
    requires forall i :: 0 <= i < |passes| ==> passes[i].pending != [] && multiset(passes[i].pending) == ids
    ensures var end := Passes(None, passes, maximum, life);
            var sent := OpSet(Submissions(None, passes, maximum, life));
            var done := CompletedCalls(None, passes, maximum, life);
            && Ops(ids, done) <= sent <= Ops(ids, Limit(maximum)) && |Ops(ids, Limit(maximum))| == Limit(maximum)
            && done <= Limit(maximum)
            && (end.Some? && end.value.state == Exhausted <==> done == Limit(maximum))
            && (end.Some? && end.value.state == Exhausted ==> sent == Ops(ids, Limit(maximum)))
  {
    RunStands(None, passes, ids, maximum, life, 0, {});
    var sent := OpSet(Submissions(None, passes, maximum, life));
    assert {} + sent == sent;
    hide Stands, Passes, Submissions, CompletedCalls, Ops, OpSet;
    StandsSays(Passes(None, passes, maximum, life), ids, maximum, CompletedCalls(None, passes, maximum, life), sent);
  }

  /**
   * An exhausted record is left alone, and nothing is submitted, by exactly
   * the passes that see one of its messages pending and no other message.
   */
  lemma ExhaustedUntilNewWorkOrEmptied(r: Record, pass: Pass, maximum: int, life: nat)
    requires r.state == Exhausted && r.life < life
    ensures Reconcile(Some(r), pass, maximum, life) == Passed(Some(r), None) <==>
            (exists id :: id in pass.pending && id in r.ids) && (forall id :: id in pass.pending ==> id in r.ids)
  {
    var p := Reconcile(Some(r), pass, maximum, life);
    if pass.pending != [] && Outdated(r, pass.pending) {
      assert p.record != Some(r);
    }
    if (exists id :: id in pass.pending && id in r.ids) && forall id :: id in pass.pending ==> id in r.ids {
      var id :| id in pass.pending && id in r.ids;
      assert pass.pending != [] && !Outdated(r, pass.pending);
    } else if pass.pending != [] {
      assert Outdated(r, pass.pending);
    }
  }

  // ----------------------------------------------------- the three adapters

  /** What became of the one native submission a call may make. */
  datatype Delivery = NotSent | Sent | Refused

  /** An adapter's answer, and what it did to the host on the way. */
  datatype Answer = Answer(outcome: Outcome, delivery: Delivery)

  /**
   * What the dispatcher relies on. A recovery never submits; nothing is
   * submitted that the host's history already shows; and busy or unavailable
   * mean that this call left nothing behind at the host.
   */
  predicate KeepsContract(recoverOnly: bool, shown: bool, a: Answer) {
    && (recoverOnly || shown ==> a.delivery == NotSent)
    && (a.outcome == Busy || a.outcome == Unavailable ==> a.delivery != Sent)
    && (a.outcome == Started || a.outcome == Queued || a.outcome == Completed ==> shown || a.delivery == Sent)
  }

  datatype HostStatus = Idle | Working | Retrying

  /** OpenCode: each read can fail or miss its deadline (None). */
  function OpenCodeActivate(closed: bool, identityMatches: Option<bool>, historyRead: bool, shown: bool,
                            recoverOnly: bool, status: Option<HostStatus>, sendSucceeds: bool): Answer {
    if closed || identityMatches != Some(true) then Answer(Unavailable, NotSent)
    else if !historyRead then Answer(Uncertain, NotSent)
    else if shown then
      Answer(if status == None then Uncertain
             else if status.value == Idle then Completed else Started, NotSent)
    else if recoverOnly then Answer(Uncertain, NotSent)
    else if status == None then Answer(Unavailable, NotSent)
    else if status.value != Idle then Answer(Busy, NotSent)
    else if sendSucceeds then Answer(Queued, Sent)
    else Answer(Uncertain, Sent)
  }

  /** How Codex answers turn/start. */
  datatype TurnStart = TurnId | NoTurnId | RejectedBusy | OtherError

  /** One turn of a Codex thread, as far as the adapter looks at it. */
  datatype Turn = Turn(hasId: bool, matches: bool, finished: bool, active: bool, complete: bool)

  function ShownTurn(turns: seq<Turn>): Option<Turn> {
    if turns == [] then None
    else if turns[0].matches && turns[0].hasId then Some(turns[0]) else ShownTurn(turns[1..])
  }

  /** Codex: turns is None when the thread lists none; seen is the adapter's own memory. */
  function CodexActivate(readSucceeds: bool, turns: Option<seq<Turn>>, seen: bool, recoverOnly: bool,
                         aborted: bool, start: TurnStart): Answer {
    if !readSucceeds then Answer(Threw, NotSent)
    else if turns == None then Answer(Unavailable, NotSent)
    else if ShownTurn(turns.value).Some? then
      Answer(if ShownTurn(turns.value).value.finished then Completed else Started, NotSent)
    else if exists i :: 0 <= i < |turns.value| && turns.value[i].active then Answer(Busy, NotSent)
    else if exists i :: 0 <= i < |turns.value| && !turns.value[i].complete then Answer(Uncertain, NotSent)
    else if seen || recoverOnly then Answer(Uncertain, NotSent)
    else match start
      case TurnId => Answer(Started, Sent)
      case NoTurnId => Answer(Uncertain, Sent)
      case RejectedBusy => if aborted then Answer(Uncertain, Sent) else Answer(Busy, Refused)
      case OtherError => Answer(Uncertain, Sent)
  }

  /** A Pi session entry about the operation. */
  datatype Entry = Unrelated | CompletedTurn | Activation(completed: bool)

  datatype Memory = Forgotten | RememberedQueued | RememberedAmbiguous

  /** Pi: completion entries first, then the activation message itself. */
  function Recorded(entries: seq<Entry>): Option<Outcome> {
    if CompletedTurn in entries then Some(Completed) else FirstActivation(entries)
  }

  function FirstActivation(entries: seq<Entry>): Option<Outcome> {
    if entries == [] then None
    else match entries[0]
      case Activation(completed) => Some(if completed then Completed else Queued)
      case _ => FirstActivation(entries[1..])
  }

  function PiActivate(usable: bool, entries: seq<Entry>, memory: Memory, recoverOnly: bool, sendSucceeds: bool): Answer {
    if !usable then Answer(Unavailable, NotSent)
    else if Recorded(entries).Some? then Answer(Recorded(entries).value, NotSent)
    else match memory
      case RememberedQueued => Answer(Queued, NotSent)
      case RememberedAmbiguous => Answer(Uncertain, NotSent)
      case Forgotten =>
        if recoverOnly then Answer(Uncertain, NotSent)
        else Answer(if sendSucceeds then Queued else Uncertain, Sent)
  }

  /** All three adapters keep the contract, whatever the host reports. */
  lemma OpenCodeKeepsContract(closed: bool, identity: Option<bool>, historyRead: bool, shown: bool,
                              recoverOnly: bool, status: Option<HostStatus>, sendSucceeds: bool)
    ensures KeepsContract(recoverOnly, historyRead && shown,
              OpenCodeActivate(closed, identity, historyRead, shown, recoverOnly, status, sendSucceeds))
  {}

  lemma {:induction false} ShownTurnIsFirstMatch(turns: seq<Turn>)
    ensures ShownTurn(turns).Some? <==> exists i :: 0 <= i < |turns| && turns[i].matches && turns[i].hasId
  {
    if turns != [] {
      ShownTurnIsFirstMatch(turns[1..]);
      if ShownTurn(turns[1..]).Some? {
        var i :| 0 <= i < |turns[1..]| && turns[1..][i].matches && turns[1..][i].hasId;
        assert turns[i + 1].matches;
      }
      if i :| 0 <= i < |turns| && turns[i].matches && turns[i].hasId && i > 0 {
        assert turns[1..][i - 1].matches && turns[1..][i - 1].hasId;
      }
    }
  }

  lemma CodexKeepsContract(readSucceeds: bool, turns: Option<seq<Turn>>, seen: bool, recoverOnly: bool,
                           aborted: bool, start: TurnStart)
    ensures var shown := turns.Some? && exists i :: 0 <= i < |turns.value| && turns.value[i].matches && turns.value[i].hasId;
            KeepsContract(recoverOnly, readSucceeds && shown,
              CodexActivate(readSucceeds, turns, seen, recoverOnly, aborted, start))
  {
    if turns.Some? { ShownTurnIsFirstMatch(turns.value); }
  }

  lemma {:induction false} FirstActivationIsShown(entries: seq<Entry>)
    ensures FirstActivation(entries).Some? <==> exists i :: 0 <= i < |entries| && entries[i].Activation?
  {
    if entries != [] {
      FirstActivationIsShown(entries[1..]);
      if FirstActivation(entries[1..]).Some? {
        var i :| 0 <= i < |entries[1..]| && entries[1..][i].Activation?;
        assert entries[i + 1].Activation?;
      }
      if i :| 0 <= i < |entries| && entries[i].Activation? && i > 0 {
        assert entries[1..][i - 1].Activation?;
      }
    }
  }

  /** Pi's memory is only of what it has sent, so a remembered answer counts as shown. */
  lemma PiKeepsContract(usable: bool, entries: seq<Entry>, memory: Memory, recoverOnly: bool, sendSucceeds: bool)
    ensures var shown := CompletedTurn in entries || exists i :: 0 <= i < |entries| && entries[i].Activation?;
            KeepsContract(recoverOnly, usable && (shown || memory == RememberedQueued),
              PiActivate(usable, entries, memory, recoverOnly, sendSucceeds))
  {
    FirstActivationIsShown(entries);
  }

  // ------------------------------------ what the answers say about the host

  /**
   * What the host said of the operation in one call: whether its history,
   * as far as it could be read, shows the prompt, and then whether the turn
   * is over, if that could be told. taken: not shown, but this call has just
   * handed the prompt over, or the adapter remembers that an earlier one did.
   */
  datatype Report = Report(shown: bool, over: Option<bool>, taken: bool)

  /** Completed means shown and over; started or queued, shown and not over, or taken; nothing else does. */
  predicate Tells(a: Answer, h: Report) {
    && (a.outcome == Completed <==> h.shown && h.over == Some(true))
    && (a.outcome == Started || a.outcome == Queued <==> (h.shown && h.over == Some(false)) || h.taken)
  }

  /** OpenCode: over means that the session is idle; a prompt goes out only to an idle one. */
  lemma OpenCodeTellsTheHost(closed: bool, identity: Option<bool>, historyRead: bool, shown: bool,
                             recoverOnly: bool, status: Option<HostStatus>, sendSucceeds: bool)
    ensures var a := OpenCodeActivate(closed, identity, historyRead, shown, recoverOnly, status, sendSucceeds);
            var bound := !closed && identity == Some(true);
            var missed := bound && historyRead && !shown && !recoverOnly;
            && Tells(a, Report(bound && historyRead && shown, if status == None then None else Some(status == Some(Idle)),
                               a.delivery == Sent && sendSucceeds))
            && (a.delivery == Sent <==> missed && status == Some(Idle))
            && (a.outcome == Busy <==> missed && status.Some? && status != Some(Idle))
            && (a.outcome == Unavailable <==> !bound || (missed && status == None))
            && a.delivery != Refused && a.outcome != Threw
  {}

  /** Turn i is the first that matches the operation. */
  predicate FirstMatch(turns: seq<Turn>, i: int) {
    && 0 <= i < |turns| && turns[i].matches && turns[i].hasId
    && forall j :: 0 <= j < i ==> !(turns[j].matches && turns[j].hasId)
  }

  lemma {:induction false} ShownTurnIsTheFirst(turns: seq<Turn>, i: int)
    requires FirstMatch(turns, i)
    ensures ShownTurn(turns) == Some(turns[i])
  {
    if i > 0 {
      assert !(turns[0].matches && turns[0].hasId);
      assert FirstMatch(turns[1..], i - 1) by {
        forall j | 0 <= j < i - 1 ensures !(turns[1..][j].matches && turns[1..][j].hasId) { assert turns[1..][j] == turns[j + 1]; }
      }
      ShownTurnIsTheFirst(turns[1..], i - 1);
    }
  }

  lemma {:induction false} ShownHasFirst(turns: seq<Turn>)
    ensures ShownTurn(turns) == None || exists i :: FirstMatch(turns, i)
  {
    if turns != [] && turns[0].matches && turns[0].hasId {
      assert FirstMatch(turns, 0);
    } else if turns != [] {
      ShownHasFirst(turns[1..]);
      if i :| FirstMatch(turns[1..], i) {
        forall j | 0 <= j < i + 1 ensures !(turns[j].matches && turns[j].hasId) {
          if j > 0 { assert turns[j] == turns[1..][j - 1]; }
        }
        assert FirstMatch(turns, i + 1);
      }
    }
  }

  /** What Codex shows of the operation: the first matching turn decides. */
  ghost predicate CodexShows(readSucceeds: bool, turns: Option<seq<Turn>>, finished: bool) {
    readSucceeds && turns.Some? && exists i :: FirstMatch(turns.value, i) && turns.value[i].finished == finished
  }

  /** Codex: over means that the first matching turn has finished; a turn starts only in a thread with none active or cut short. */
  lemma CodexTellsTheHost(readSucceeds: bool, turns: Option<seq<Turn>>, seen: bool, recoverOnly: bool,
                          aborted: bool, start: TurnStart)
    ensures var a := CodexActivate(readSucceeds, turns, seen, recoverOnly, aborted, start);
            var over := CodexShows(readSucceeds, turns, true);
            var shown := over || CodexShows(readSucceeds, turns, false);
            var missed := readSucceeds && turns.Some? && !shown;
            && !(over && CodexShows(readSucceeds, turns, false))
            && Tells(a, Report(shown, Some(over), a.delivery == Sent && start == TurnId))
            && (a.delivery != NotSent <==>
                  missed && !seen && !recoverOnly &&
                  forall turn :: turn in turns.value ==> !turn.active && turn.complete)
            && (a.delivery == Refused <==> a.delivery != NotSent && start == RejectedBusy && !aborted)
            && (a.outcome == Busy <==> a.delivery == Refused || (missed && exists turn :: turn in turns.value && turn.active))
            && (a.outcome == Unavailable <==> readSucceeds && turns == None)
            && (a.outcome == Threw <==> !readSucceeds)
  {
    if readSucceeds && turns.Some? {
      var ts := turns.value;
      ShownHasFirst(ts);
      if i :| FirstMatch(ts, i) {
        ShownTurnIsTheFirst(ts, i);
        assert forall j :: FirstMatch(ts, j) ==> j == i;
      } else {
        assert ShownTurn(ts) == None;
        if turn :| turn in ts && turn.active { var i :| 0 <= i < |ts| && ts[i] == turn; assert ts[i].active; }
        if turn :| turn in ts && !turn.complete { var i :| 0 <= i < |ts| && ts[i] == turn; assert !ts[i].complete; }
      }
    }
  }

  /** Entry i is the first activation entry of the operation. */
  predicate FirstStart(entries: seq<Entry>, i: int) {
    && 0 <= i < |entries| && entries[i].Activation?
    && forall j :: 0 <= j < i ==> !entries[j].Activation?
  }

  lemma {:induction false} FirstActivationIsTheFirst(entries: seq<Entry>)
    ensures match FirstActivation(entries)
            case None => forall i :: 0 <= i < |entries| ==> !entries[i].Activation?
            case Some(outcome) => exists i :: FirstStart(entries, i) && outcome == if entries[i].completed then Completed else Queued
  {
    if entries != [] && entries[0].Activation? {
      assert FirstStart(entries, 0);
    } else if entries != [] {
      FirstActivationIsTheFirst(entries[1..]);
      if FirstActivation(entries[1..]).Some? {
        var i :| FirstStart(entries[1..], i) &&
                 FirstActivation(entries[1..]).value == if entries[1..][i].completed then Completed else Queued;
        forall j | 0 <= j < i + 1 ensures !entries[j].Activation? { if j > 0 { assert entries[j] == entries[1..][j - 1]; } }
        assert FirstStart(entries, i + 1);
      } else {
        forall i | 0 <= i < |entries| ensures !entries[i].Activation? { if i > 0 { assert entries[i] == entries[1..][i - 1]; } }
      }
    }
  }

  ghost predicate PiShows(entries: seq<Entry>, completed: bool) {
    exists i :: FirstStart(entries, i) && entries[i].completed == completed
  }

  /** Pi: over means a completion entry or, failing one, a first activation entry marked completed. */
  lemma PiTellsTheHost(usable: bool, entries: seq<Entry>, memory: Memory, recoverOnly: bool, sendSucceeds: bool)
    ensures var a := PiActivate(usable, entries, memory, recoverOnly, sendSucceeds);
            var over := CompletedTurn in entries || PiShows(entries, true);
            var shown := usable && (over || PiShows(entries, false));
            && !(PiShows(entries, true) && PiShows(entries, false))
            && Tells(a, Report(shown, Some(over), usable && !shown && (memory == RememberedQueued || (a.delivery == Sent && sendSucceeds))))
            && (a.delivery == Sent <==> usable && !shown && memory == Forgotten && !recoverOnly)
            && (a.outcome == Unavailable <==> !usable) && a.outcome != Busy && a.outcome != Threw && a.delivery != Refused
  {
    FirstActivationIsTheFirst(entries);
    if i :| FirstStart(entries, i) { assert forall j :: FirstStart(entries, j) ==> j == i; }
  }

  // ----------------------------- what a pass's answer means for the next one

  /** A pass that comes as far as the adapter takes this record there. */
  function Called(record: Option<Record>, pass: Pass, life: nat): Record {
    if record.Some? && !Outdated(record.value, pass.pending) then record.value else CreateRecord(life, pass.pending, 1)
  }

  /** A pass submits exactly if it comes as far as the adapter with a record not submitted yet: the first attempt on new messages, or one reset or renewed. */
  lemma PassSubmitsIff(record: Option<Record>, pass: Pass, maximum: int, life: nat)
    ensures var p := Reconcile(record, pass, maximum, life);
            && (p.submitted.Some? <==> Calls(record, pass) && Called(record, pass, life).state == Pending)
            && (p.submitted.Some? ==> p.submitted == Some(Called(record, pass, life).op))
            && (record == None && Calls(record, pass) ==> p.submitted == Some(Op(multiset(pass.pending), 1)))
            && (pass.pending == [] ==> p.record == None)
            && (pass.pending != [] && !Calls(record, pass) ==>
                  p.record == (if record.Some? && Outdated(record.value, pass.pending)
                               then if pass.claimed then None else Some(CreateRecord(life, pass.pending, 1))
                               else if record == None && !pass.claimed then Some(CreateRecord(life, pass.pending, 1)) else record))
  {
  }

  /**
   * What the call of one pass answers decides what the next pass over the same
   * messages does, if it comes as far as the adapter: it submits the same
   * operation again exactly if the call was a submission that left nothing at
   * the host, and the next attempt exactly if the turn had ended with attempts
   * left; otherwise it only asks after the operation. After the end of the
   * last attempt's turn none comes that far, unless there is a message that
   * the record does not cover: then attempts start afresh.
   */
  lemma AnswerDecidesNextPass(record: Option<Record>, first: Pass, second: Pass, maximum: int, life: nat)
    requires RecordOk(record, maximum) && Calls(record, first)
    requires multiset(first.pending) == multiset(second.pending) && !second.claimed && !second.deferred
    ensures var r := Called(record, first, life);
            var p := Reconcile(record, first, maximum, life);
            var q := Reconcile(p.record, second, maximum, life + 2);
            var left, more := r.attempt < Limit(maximum), exists id :: id in second.pending && id !in r.ids;
            && (Calls(p.record, second) <==> first.outcome != Completed || left || more)
            && (q.submitted.Some? <==>
                  (first.outcome == Completed && (left || more)) ||
                  (r.state == Pending && (first.outcome == Busy || first.outcome == Unavailable)))
            && (q.submitted.Some? ==>
                  q.submitted == Some(if first.outcome == Completed then Op(multiset(first.pending), if left then r.attempt + 1 else 1) else r.op))
            && (Calls(p.record, second) && q.submitted == None ==> Called(p.record, second, life + 2).op == r.op)
  {
    CallLeaves(record, first, maximum, life);
    var r := Called(record, first, life);
    var next := Reconcile(record, first, maximum, life).record.value;
    assert second.pending != [] by { assert |multiset(first.pending)| == |first.pending|; }
    SamePending(first, second);
    assert exists id :: id in r.ids && id in first.pending by {
      if record == None || Outdated(record.value, first.pending) { assert r.ids[0] in r.ids; }
    }
    if next.ids == first.pending { SameMessages(next, second.pending); }
    assert Outdated(next, second.pending) <==> next.state == Exhausted && exists id :: id in second.pending && id !in r.ids;
    hide RecordOk, Outdated, Reconcile, AfterOutcome, Limit;
    PassSubmitsIff(Some(next), second, maximum, life + 2);
  }

  /** What a call with r leaves in place of it. */
  predicate LeavesFor(r: Record, next: Record, pass: Pass, maximum: int) {
    && (if pass.outcome == Completed && r.attempt < Limit(maximum)
        then next.ids == pass.pending && next.op == Op(multiset(pass.pending), r.attempt + 1) && next.state == Pending
        else next.ids == r.ids && next.op == r.op)
    && (next.state == Exhausted <==> pass.outcome == Completed && r.attempt == Limit(maximum))
    && (pass.outcome != Completed ==>
          (next.state == Pending <==> r.state == Pending && (pass.outcome == Busy || pass.outcome == Unavailable)))
    && (pass.outcome == Started || pass.outcome == Queued ==> next.state == Accepted)
    && (pass.outcome == Uncertain ==> next.state == Ambiguous)
    && (pass.outcome == Busy || pass.outcome == Unavailable ==> next == r)
    && (pass.outcome == Threw ==> next == r.(state := if r.state == Pending then Submitting else r.state))
  }

  /** The record that a call leaves, its state the last answer. */
  lemma CallLeaves(record: Option<Record>, pass: Pass, maximum: int, life: nat)
    requires RecordOk(record, maximum) && Calls(record, pass)
    ensures var r, p := Called(record, pass, life), Reconcile(record, pass, maximum, life);
            p.record.Some? && r.state != Exhausted && LeavesFor(r, p.record.value, pass, maximum)
  {
    var r := Called(record, pass, life);
    assert RecordOk(Some(r), maximum);
    SubmitLeaves(r, pass, maximum, if record.Some? && !Outdated(record.value, pass.pending) then life else life + 1);
    hide Outdated, LeavesFor, Submit, RecordOk;
  }

  lemma SubmitLeaves(r: Record, pass: Pass, maximum: int, life: nat)
    requires RecordOk(Some(r), maximum) && r.state != Exhausted && !pass.deferred
    ensures var p := Submit(r, pass, maximum, life); p.record.Some? && LeavesFor(r, p.record.value, pass, maximum)
  {
  }

  lemma SamePending(first: Pass, second: Pass)
    requires multiset(first.pending) == multiset(second.pending)
    ensures forall id :: id in first.pending <==> id in second.pending
  {
    forall id ensures id in first.pending <==> id in second.pending {
      assert id in multiset(first.pending) <==> id in multiset(second.pending);
    }
  }
}
