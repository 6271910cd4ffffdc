/**
 * Any number of dispatchers of one inbox, taken one Redis call or one host
 * exchange at a time (src/registered-shell/inbox-dispatcher.ts:44-115 over
 * activation-store.ts:32-77). A crash is a dispatcher that takes no further
 * step; the owner key and the record may expire between any two steps.
 */
module Dispatcher {
  import opened Options
  import opened Activation

  /**
   * How far an adapter's call has come. Missed(true): another call sent the
   * operation meanwhile. Remembered: the adapter itself sent it earlier.
   */
  datatype Seen = NotYet | Missed(overtaken: bool) | Found | Remembered | SentPrompt

  /** Where one dispatcher stands in reconcile. */
  datatype Stage =
    | Resting
    | Owning
    | Listed(pending: seq<MessageId>)
    | Loaded(pending: seq<MessageId>, found: Option<Record>)
    | Settled(pending: seq<MessageId>, found: Option<Record>)
    | Ready(pending: seq<MessageId>, record: Record)
    | Marked(pending: seq<MessageId>, record: Record)
    | InCall(pending: seq<MessageId>, record: Record, recovery: bool, seen: Seen)
    | Answered(pending: seq<MessageId>, record: Record, recovery: bool, outcome: Outcome)
    | Confirmed(pending: seq<MessageId>, record: Record, recovery: bool, outcome: Outcome)
    | Stopped

  /** A non-recovery call's milestones, as they happen. */
  datatype Kind = Marks | Calls | Sends | Resets
  datatype Entry = Entry(kind: Kind, life: nat, token: Token, op: Op)

  datatype State = State(
    owner: Option<Token>,
    record: Option<Record>,
    lives: nat,
    runs: map<Token, Stage>,
    log: seq<Entry>,
    inflight: multiset<Op>,
    accepted: multiset<Op>,
    ended: set<Op>)

  const Start := State(None, None, 0, map[], [], multiset{}, multiset{}, {})

  datatype Step =
    | Attach(t: Token)
    | Refresh(t: Token)
    | ReadPending(t: Token, pending: seq<MessageId>)
    | Load(t: Token)
    | Settle(t: Token)
    | Gate(t: Token, claimed: bool)
    | Decide(t: Token, deferred: bool)
    | BeginCall(t: Token)
    | Look(t: Token, shown: bool, purge: bool)
    | Recall(t: Token)
    | Send(t: Token, atOnce: bool)
    | Return(t: Token, outcome: Outcome)
    | Recheck(t: Token)
    | Finish(t: Token, maximum: int)
    | Abandon(t: Token)
    | Detach(t: Token)
    | OwnerExpires
    | RecordExpires
    | Accept(op: Op)
    | Drop(op: Op)
    | TurnEnds(op: Op)

  predicate Alive(s: State, t: Token) {
    t in s.runs && s.runs[t] != Stopped
  }

  function At(s: State, t: Token): Stage {
    if t in s.runs then s.runs[t] else Stopped
  }

  function Move(s: State, t: Token, stage: Stage): State {
    s.(runs := s.runs[t := stage])
  }

  function Note(s: State, kind: Kind, t: Token, r: Record): State {
    s.(log := s.log + [Entry(kind, r.life, t, r.op)])
  }

  /** ActivationStore.save: only the present owner writes. */
  function Save(s: State, t: Token, r: Option<Record>): State {
    if s.owner == Some(t) then s.(record := r) else s
  }

  function SettleNext(s: State, t: Token, pending: seq<MessageId>, found: Option<Record>): State {
    if pending == [] || (found.Some? && Outdated(found.value, pending))
    then Move(Save(s, t, None), t, if s.owner == Some(t) then Settled(pending, None) else Resting)
    else Move(s, t, Settled(pending, found))
  }

  function GateNext(s: State, t: Token, pending: seq<MessageId>, found: Option<Record>, claimed: bool): State {
    if pending == [] || claimed then Move(s, t, Resting)
    else if found.Some? then Move(s, t, Ready(pending, found.value))
    else
      var r := CreateRecord(s.lives, pending, 1);
      Move(Save(s.(lives := s.lives + 1), t, Some(r)), t, if s.owner == Some(t) then Ready(pending, r) else Resting)
  }

  function DecideNext(s: State, t: Token, pending: seq<MessageId>, r: Record, deferred: bool): State {
    if r.state == Exhausted || deferred then Move(s, t, Resting)
    else if r.state != Pending then Move(s, t, InCall(pending, r, true, NotYet))
    else if s.owner == Some(t) then
      Note(Move(Save(s, t, Some(r.(state := Submitting))), t, Marked(pending, r)), Marks, t, r)
    else Move(s, t, Resting)
  }

  function LookNext(s: State, t: Token, stage: Stage, shown: bool, purge: bool): State
    requires stage.InCall?
  {
    Move(if purge then s.(inflight := s.inflight[stage.record.op := 0]) else s, t,
         stage.(seen := if shown then Found else Missed(false)))
  }

  /** Other calls that have looked, and are about to send the same operation. */
  function Overtake(runs: map<Token, Stage>, op: Op): map<Token, Stage> {
    map t | t in runs ::
      if runs[t].InCall? && runs[t].seen.Missed? && runs[t].record.op == op
      then runs[t].(seen := Missed(true)) else runs[t]
  }

  function SendNext(s: State, t: Token, stage: Stage, atOnce: bool): State
    requires stage.InCall?
  {
    var op := stage.record.op;
    var s1 := s.(runs := Overtake(s.runs, op)[t := stage.(seen := SentPrompt)]);
    Note(if atOnce then s1.(accepted := s.accepted + multiset{op}) else s1.(inflight := s.inflight + multiset{op}),
         Sends, t, stage.record)
  }

  predicate SentBefore(s: State, t: Token, op: Op) {
    exists i :: 0 <= i < |s.log| && s.log[i].kind == Sends && s.log[i].token == t && s.log[i].op == op
  }

  /** What the adapters' contract lets a call answer, after what it has seen and done. */
  predicate MayAnswer(recovery: bool, seen: Seen, outcome: Outcome) {
    KeepsContract(recovery, seen == Found || seen == Remembered, Answer(outcome, if seen == SentPrompt then Sent else NotSent))
  }

  function FinishNext(s: State, t: Token, stage: Stage, maximum: int): State
    requires stage.Confirmed? && stage.outcome != Threw
  {
    var s1 := Move(s, t, Resting);
    if s.owner != Some(t) then s1 else
    var s2 := s1.(record := Some(AfterOutcome(stage.record, stage.pending, stage.outcome, maximum, s.lives)),
                  lives := s.lives + 1);
    if !stage.recovery && (stage.outcome == Busy || stage.outcome == Unavailable)
    then Note(s2, Resets, t, stage.record) else s2
  }

  /** No dispatcher's step: expiry, and what the host does. */
  predicate Outside(step: Step) {
    step.OwnerExpires? || step.RecordExpires? || step.Accept? || step.Drop? || step.TurnEnds?
  }

  function OutsideNext(s: State, step: Step): State
    requires Outside(step)
  {
    match step
    case OwnerExpires => s.(owner := None)
    case RecordExpires => s.(record := None)
    case Accept(op) =>
      if op in s.inflight then s.(inflight := s.inflight - multiset{op}, accepted := s.accepted + multiset{op}) else s
    case Drop(op) => s.(inflight := s.inflight - multiset{op})
    case TurnEnds(op) => if op in s.accepted then s.(ended := s.ended + {op}) else s
  }

  /** A step of a call of the adapter, from its begin to the saved answer. */
  predicate OfCall(step: Step) {
    step.BeginCall? || step.Look? || step.Recall? || step.Send? || step.Return? || step.Recheck? || step.Finish?
  }

  function CallNext(s: State, step: Step): State
    requires OfCall(step)
  {
    match step
    case BeginCall(t) =>
      if At(s, t).Marked?
      then Note(Move(s, t, InCall(At(s, t).pending, At(s, t).record, false, NotYet)), Calls, t, At(s, t).record) else s
    case Look(t, shown, purge) =>
      if At(s, t).InCall? && At(s, t).seen == NotYet then LookNext(s, t, At(s, t), shown, purge) else s
    case Recall(t) =>
      if At(s, t).InCall? && At(s, t).seen.Missed? && SentBefore(s, t, At(s, t).record.op)
      then Move(s, t, At(s, t).(seen := Remembered)) else s
    case Send(t, atOnce) =>
      if At(s, t).InCall? && !At(s, t).recovery && At(s, t).seen.Missed? then SendNext(s, t, At(s, t), atOnce) else s
    case Return(t, outcome) =>
      if At(s, t).InCall? && MayAnswer(At(s, t).recovery, At(s, t).seen, outcome)
      then Move(s, t, if outcome == Threw then Resting
                      else Answered(At(s, t).pending, At(s, t).record, At(s, t).recovery, outcome))
      else s
    case Recheck(t) =>
      if At(s, t).Answered?
      then Move(s, t, if s.owner == Some(t)
                      then Confirmed(At(s, t).pending, At(s, t).record, At(s, t).recovery, At(s, t).outcome)
                      else Resting)
      else s
    case Finish(t, maximum) =>
      if At(s, t).Confirmed? && At(s, t).outcome != Threw then FinishNext(s, t, At(s, t), maximum) else s
  }

  function PassNext(s: State, step: Step): State
    requires !Outside(step) && !OfCall(step)
  {
    match step
    case Attach(t) => if s.owner == None && t !in s.runs then Move(s.(owner := Some(t)), t, Resting) else s
    case Refresh(t) =>
      if At(s, t) == Resting && s.owner == Some(t) then Move(s, t, Owning) else s
    case ReadPending(t, pending) => if At(s, t) == Owning then Move(s, t, Listed(pending)) else s
    case Load(t) => if At(s, t).Listed? then Move(s, t, Loaded(At(s, t).pending, s.record)) else s
    case Settle(t) => if At(s, t).Loaded? then SettleNext(s, t, At(s, t).pending, At(s, t).found) else s
    case Gate(t, claimed) =>
      if At(s, t).Settled? then GateNext(s, t, At(s, t).pending, At(s, t).found, claimed) else s
    case Decide(t, deferred) =>
      if At(s, t).Ready? then DecideNext(s, t, At(s, t).pending, At(s, t).record, deferred) else s
    case Abandon(t) => if Alive(s, t) then Move(s, t, Resting) else s
    case Detach(t) =>
      if At(s, t) == Resting then Move(s.(owner := if s.owner == Some(t) then None else s.owner), t, Stopped) else s
  }

  /** One atomic step; a step that is not enabled changes nothing. */
  function Next(s: State, step: Step): State {
    if Outside(step) then OutsideNext(s, step) else if OfCall(step) then CallNext(s, step) else PassNext(s, step)
  }

  function Run(s: State, steps: seq<Step>): State
    decreases |steps|
  {
    if steps == [] then s else Run(Next(s, steps[0]), steps[1..])
  }

  lemma OutsideFrame(s: State, step: Step)
    requires Outside(step)
    ensures Next(s, step).runs == s.runs && Next(s, step).log == s.log && Next(s, step).lives == s.lives
    ensures s.ended <= Next(s, step).ended
    ensures Next(s, step).owner == s.owner || Next(s, step).owner == None
    ensures Next(s, step).record == s.record || Next(s, step).record == None
  {
    hide CallNext, PassNext, Next;
    OutsideKeeps(s, step);
  }

  lemma OutsideKeeps(s: State, step: Step)
    requires Outside(step)
    ensures Next(s, step) == OutsideNext(s, step)
    ensures OutsideNext(s, step) == s.(owner := OutsideNext(s, step).owner, record := OutsideNext(s, step).record,
                                       inflight := OutsideNext(s, step).inflight, accepted := OutsideNext(s, step).accepted,
                                       ended := OutsideNext(s, step).ended)
  {
    hide CallNext, PassNext;
  }

  // ------------------------------------- write-ahead: the log of every life

  /** Where a record's life stands: free, marked submitting by one owner, or called. */
  datatype Phase = Free | MarkedBy(t: Token, op: Op) | CalledBy(t: Token, op: Op, sent: bool) | Broken

  /** mark, call, perhaps send; only an unsent call may be reset to pending. */
  function Advance(p: Phase, e: Entry): Phase {
    match e.kind
    case Marks => if p == Free then MarkedBy(e.token, e.op) else Broken
    case Calls => if p == MarkedBy(e.token, e.op) then CalledBy(e.token, e.op, false) else Broken
    case Sends => if p == CalledBy(e.token, e.op, false) then CalledBy(e.token, e.op, true) else Broken
    case Resets => if p == CalledBy(e.token, e.op, false) then Free else Broken
  }

  function PhaseOf(log: seq<Entry>, life: nat): Phase {
    if log == [] then Free else
    var p := PhaseOf(log[..|log| - 1], life);
    if log[|log| - 1].life == life then Advance(p, log[|log| - 1]) else p
  }

  lemma PhaseGrows(log: seq<Entry>, e: Entry, life: nat)
    ensures PhaseOf(log + [e], life) == if e.life == life then Advance(PhaseOf(log, life), e) else PhaseOf(log, life)
  {
    assert (log + [e])[..|log|] == log;
  }

  /** A stage's own place in the life of the record it holds. */
  ghost predicate StageOk(s: State, t: Token, stage: Stage) {
    match stage
    case Loaded(_, found) => OwnedOk(s, t, found)
    case Settled(_, found) => OwnedOk(s, t, found)
    case Ready(_, r) => OwnedOk(s, t, Some(r))
    case Marked(_, r) => r.life < s.lives && r.state == Pending && PhaseOf(s.log, r.life) == MarkedBy(t, r.op)
    case InCall(_, r, recovery, seen) =>
      CallOk(s, t, r, recovery) &&
      (!recovery ==> PhaseOf(s.log, r.life) == CalledBy(t, r.op, seen == SentPrompt)) &&
      (recovery ==> seen != SentPrompt)
    case Answered(_, r, recovery, outcome) => AnswerOk(s, t, r, recovery, outcome)
    case Confirmed(_, r, recovery, outcome) => AnswerOk(s, t, r, recovery, outcome)
    case _ => true
  }

  ghost predicate CallOk(s: State, t: Token, r: Record, recovery: bool) {
    r.life < s.lives && (recovery <==> r.state != Pending)
  }

  ghost predicate AnswerOk(s: State, t: Token, r: Record, recovery: bool, outcome: Outcome) {
    && CallOk(s, t, r, recovery)
    && (!recovery ==>
          PhaseOf(s.log, r.life) == CalledBy(t, r.op, false) ||
          (PhaseOf(s.log, r.life) == CalledBy(t, r.op, true) && outcome != Busy && outcome != Unavailable))
  }

  /** A pending record in the present owner's hands belongs to a free life. */
  ghost predicate OwnedOk(s: State, t: Token, found: Option<Record>) {
    found.Some? ==>
      found.value.life < s.lives &&
      (s.owner == Some(t) && found.value.state == Pending ==> PhaseOf(s.log, found.value.life) == Free)
  }

  ghost predicate RecordFree(s: State) {
    s.record.Some? ==>
      s.record.value.life < s.lives && (s.record.value.state == Pending ==> PhaseOf(s.log, s.record.value.life) == Free)
  }

  ghost predicate Inv(s: State) {
    && (s.owner.Some? ==> s.owner.value in s.runs)
    && RecordFree(s)
    && (forall t :: t in s.runs ==> StageOk(s, t, s.runs[t]))
    && (forall l: nat :: l >= s.lives ==> PhaseOf(s.log, l) == Free)
    && (forall l: nat :: PhaseOf(s.log, l) != Broken)
  }

  /** Steps that neither log nor create: only the mover's stage needs checking. */
  lemma QuietStep(s: State, s': State, t: Token)
    requires Inv(s) && s'.log == s.log && s.lives <= s'.lives
    requires s'.runs.Keys == s.runs.Keys + {t} && (forall u :: u in s.runs && u != t ==> s'.runs[u] == s.runs[u])
    requires s'.owner == s.owner || s'.owner == None || (s'.owner == Some(t))
    requires RecordFree(s') && StageOk(s', t, s'.runs[t])
    ensures Inv(s')
  {
    hide PhaseOf;
    forall u | u in s'.runs ensures StageOk(s', u, s'.runs[u]) {
      if u != t { assert StageOk(s, u, s.runs[u]); }
    }
  }

  /** A logged step by t: every other stage keeps its place. */
  lemma LoggedStep(s: State, s': State, t: Token, e: Entry)
    requires Inv(s) && t in s.runs && e.token == t && s'.log == s.log + [e] && s.lives <= s'.lives && e.life < s.lives
    requires s'.owner == s.owner
    requires s'.runs.Keys == s.runs.Keys
    requires forall u :: u in s.runs && u != t ==>
               s'.runs[u] == s.runs[u] ||
               (s.runs[u].InCall? && s.runs[u].seen.Missed? && s'.runs[u] == s.runs[u].(seen := Missed(true)))
    requires Advance(PhaseOf(s.log, e.life), e) != Broken
    requires e.kind == Marks ==> s.owner == Some(t)
    requires RecordFree(s') && StageOk(s', t, s'.runs[t])
    ensures Inv(s')
  {
    hide PhaseOf;
    forall l: nat ensures PhaseOf(s'.log, l) != Broken && (l >= s'.lives ==> PhaseOf(s'.log, l) == Free)
      ensures l != e.life ==> PhaseOf(s'.log, l) == PhaseOf(s.log, l)
      ensures l == e.life ==> PhaseOf(s'.log, l) == Advance(PhaseOf(s.log, l), e)
    {
      PhaseGrows(s.log, e, l);
    }
    forall u | u in s'.runs ensures StageOk(s', u, s'.runs[u]) {
      if u != t { OthersKeep(s, s', t, e, u); }
    }
  }

  lemma OthersKeep(s: State, s': State, t: Token, e: Entry, u: Token)
    requires Inv(s) && t in s.runs && u in s.runs && u != t && e.token == t && s.lives <= s'.lives && e.life < s.lives
    requires s'.owner == s.owner
    requires u in s'.runs
    requires s'.runs[u] == s.runs[u] ||
             (s.runs[u].InCall? && s.runs[u].seen.Missed? && s'.runs[u] == s.runs[u].(seen := Missed(true)))
    requires Advance(PhaseOf(s.log, e.life), e) != Broken
    requires e.kind == Marks ==> s.owner == Some(t)
    requires forall l: nat :: PhaseOf(s'.log, l) == if l == e.life then Advance(PhaseOf(s.log, l), e) else PhaseOf(s.log, l)
    ensures StageOk(s', u, s'.runs[u])
  {
    hide PhaseOf;
    assert StageOk(s, u, s.runs[u]);
  }

  lemma SendKeepsInv(s: State, t: Token, stage: Stage, atOnce: bool)
    requires Inv(s) && At(s, t) == stage && stage.InCall? && !stage.recovery && stage.seen.Missed?
    ensures Inv(SendNext(s, t, stage, atOnce))
  {
    hide PhaseOf;
    var s' := SendNext(s, t, stage, atOnce);
    var e := Entry(Sends, stage.record.life, t, stage.record.op);
    assert StageOk(s, t, stage);
    PhaseGrows(s.log, e, stage.record.life);
    if s.record.Some? { PhaseGrows(s.log, e, s.record.value.life); }
    LoggedStep(s, s', t, e);
  }

  lemma FinishKeepsInv(s: State, t: Token, stage: Stage, maximum: int)
    requires Inv(s) && At(s, t) == stage && stage.Confirmed? && stage.outcome != Threw
    ensures Inv(FinishNext(s, t, stage, maximum))
  {
    hide PhaseOf;
    var s' := FinishNext(s, t, stage, maximum);
    var r := stage.record;
    assert StageOk(s, t, stage);
    if s.owner == Some(t) && !stage.recovery && (stage.outcome == Busy || stage.outcome == Unavailable) {
      var e := Entry(Resets, r.life, t, r.op);
      PhaseGrows(s.log, e, r.life);
      LoggedStep(s, s', t, e);
    } else {
      QuietStep(s, s', t);
    }
  }

  lemma DecideKeepsInv(s: State, t: Token, pending: seq<MessageId>, r: Record, deferred: bool)
    requires Inv(s) && At(s, t) == Ready(pending, r)
    ensures Inv(DecideNext(s, t, pending, r, deferred))
  {
    hide PhaseOf;
    var s' := DecideNext(s, t, pending, r, deferred);
    assert StageOk(s, t, At(s, t));
    if r.state == Pending && !deferred && s.owner == Some(t) {
      var e := Entry(Marks, r.life, t, r.op);
      PhaseGrows(s.log, e, r.life);
      LoggedStep(s, s', t, e);
    } else {
      QuietStep(s, s', t);
    }
  }

  lemma CallKeepsInv(s: State, t: Token)
    requires Inv(s) && At(s, t).Marked?
    ensures Inv(Next(s, BeginCall(t)))
  {
    hide PhaseOf;
    var s' := Next(s, BeginCall(t));
    var r := At(s, t).record;
    assert StageOk(s, t, At(s, t));
    var e := Entry(Calls, r.life, t, r.op);
    PhaseGrows(s.log, e, r.life);
    if s.record.Some? { PhaseGrows(s.log, e, s.record.value.life); }
    LoggedStep(s, s', t, e);
  }

  lemma SettleKeepsInv(s: State, t: Token, pending: seq<MessageId>, found: Option<Record>)
    requires Inv(s) && At(s, t) == Loaded(pending, found)
    ensures Inv(SettleNext(s, t, pending, found))
  {
    hide PhaseOf, Outdated;
    assert StageOk(s, t, At(s, t));
    QuietStep(s, SettleNext(s, t, pending, found), t);
  }

  lemma GateKeepsInv(s: State, t: Token, pending: seq<MessageId>, found: Option<Record>, claimed: bool)
    requires Inv(s) && At(s, t) == Settled(pending, found)
    ensures Inv(GateNext(s, t, pending, found, claimed))
  {
    hide PhaseOf;
    assert StageOk(s, t, At(s, t));
    QuietStep(s, GateNext(s, t, pending, found, claimed), t);
  }

  lemma AdapterKeepsInv(s: State, step: Step)
    requires Inv(s) && (step.Look? || step.Recall? || step.Return? || step.Recheck?)
    ensures Inv(Next(s, step))
  {
    hide PhaseOf, PassNext, OutsideNext, SentBefore;
    if step.Return? {
      ReturnKeepsInv(s, step);
    } else {
      hide KeepsContract;
      var s' := Next(s, step);
      assert step.t in s.runs ==> StageOk(s, step.t, At(s, step.t));
      if s' != s { QuietStep(s, s', step.t); }
    }
  }

  lemma ReturnKeepsInv(s: State, step: Step)
    requires Inv(s) && step.Return?
    ensures Inv(Next(s, step))
  {
    hide PhaseOf, PassNext, OutsideNext, SentBefore;
    var s' := Next(s, step);
    assert step.t in s.runs ==> StageOk(s, step.t, At(s, step.t));
    if s' != s { QuietStep(s, s', step.t); }
  }

  lemma ShellKeepsInv(s: State, step: Step)
    requires Inv(s)
    requires step.Attach? || step.Refresh? || step.Load? || step.ReadPending? || step.Abandon? || step.Detach?
    ensures Inv(Next(s, step))
  {
    hide PhaseOf;
    var s' := Next(s, step);
    if s' != s { QuietStep(s, s', step.t); }
  }

  /** Expiry, and whatever the host does, touch no dispatcher. */
  lemma OutsideKeepsInv(s: State, s': State)
    requires Inv(s) && s'.runs == s.runs && s'.log == s.log && s'.lives == s.lives
    requires s'.owner == s.owner || s'.owner == None
    requires s'.record == s.record || s'.record == None
    ensures Inv(s')
  {
    hide PhaseOf;
    forall u | u in s'.runs ensures StageOk(s', u, s'.runs[u]) {
      assert StageOk(s, u, s.runs[u]);
    }
  }

  lemma StepKeepsInv(s: State, step: Step)
    requires Inv(s)
    ensures Inv(Next(s, step))
  {
    hide Inv, PhaseOf;
    match step
    case Attach(t) => ShellKeepsInv(s, step);
    case Refresh(t) => ShellKeepsInv(s, step);
    case ReadPending(t, pending) => ShellKeepsInv(s, step);
    case Load(t) => ShellKeepsInv(s, step);
    case Settle(t) =>
      if At(s, t).Loaded? { SettleKeepsInv(s, t, At(s, t).pending, At(s, t).found); }
    case Gate(t, claimed) =>
      if At(s, t).Settled? { GateKeepsInv(s, t, At(s, t).pending, At(s, t).found, claimed); }
    case Decide(t, deferred) =>
      if At(s, t).Ready? { DecideKeepsInv(s, t, At(s, t).pending, At(s, t).record, deferred); }
    case BeginCall(t) => if At(s, t).Marked? { CallKeepsInv(s, t); }
    case Look(t, shown, purge) => AdapterKeepsInv(s, step);
    case Recall(t) => AdapterKeepsInv(s, step);
    case Send(t, atOnce) =>
      if At(s, t).InCall? && !At(s, t).recovery && At(s, t).seen.Missed? { SendKeepsInv(s, t, At(s, t), atOnce); }
    case Return(t, outcome) => AdapterKeepsInv(s, step);
    case Recheck(t) => AdapterKeepsInv(s, step);
    case Finish(t, maximum) =>
      if At(s, t).Confirmed? && At(s, t).outcome != Threw { FinishKeepsInv(s, t, At(s, t), maximum); }
    case Abandon(t) => ShellKeepsInv(s, step);
    case Detach(t) => ShellKeepsInv(s, step);
    case OwnerExpires => OutsideKeepsInv(s, Next(s, step));
    case RecordExpires => OutsideKeepsInv(s, Next(s, step));
    case Accept(op) => OutsideKeepsInv(s, Next(s, step));
    case Drop(op) => OutsideKeepsInv(s, Next(s, step));
    case TurnEnds(op) => OutsideKeepsInv(s, Next(s, step));
  }

  lemma {:induction false} RunKeepsInv(s: State, steps: seq<Step>)
    requires Inv(s)
    ensures Inv(Run(s, steps))
    decreases |steps|
  {
    hide Inv;
    if steps != [] {
      StepKeepsInv(s, steps[0]);
      RunKeepsInv(Next(s, steps[0]), steps[1..]);
    }
  }

  /** A mark is the present owner's durable write of "submitting". */
  lemma MarkIsDurableWriteByOwner(s: State, step: Step)
    ensures var s' := Next(s, step);
            |s'.log| > |s.log| && s'.log[|s'.log| - 1].kind == Marks ==>
              var e := s'.log[|s'.log| - 1];
              && s.owner == Some(e.token)
              && s'.record.Some? && s'.record.value.state == Submitting
              && s'.record.value.life == e.life && s'.record.value.op == e.op
  {
  }

  /** A reset is the present owner's durable write of "pending" after busy or unavailable. */
  lemma ResetIsDurableWriteByOwner(s: State, step: Step)
    requires Inv(s)
    ensures var s' := Next(s, step);
            |s'.log| > |s.log| && s'.log[|s'.log| - 1].kind == Resets ==>
              var e := s'.log[|s'.log| - 1];
              && s.owner == Some(e.token)
              && At(s, e.token).Confirmed? && At(s, e.token).outcome in {Busy, Unavailable}
              && s'.record.Some? && s'.record.value.state == Pending
              && s'.record.value.life == e.life && s'.record.value.op == e.op
  {
    hide PhaseOf;
    if step.Finish? && step.t in s.runs { assert StageOk(s, step.t, At(s, step.t)); }
  }

  /** A dispatcher becomes owner exactly when it attaches, for the first time, to an inbox without one, and stops being it by detaching or expiry only. */
  lemma OwnerChangesBy(s: State, step: Step, t: Token)
    ensures s.owner != Some(t) ==> (Next(s, step).owner == Some(t) <==> step == Attach(t) && s.owner == None && t !in s.runs)
    ensures s.owner == Some(t) ==>
              (Next(s, step).owner != Some(t) <==> step.OwnerExpires? || (step == Detach(t) && At(s, t) == Resting))
  {
    if Outside(step) {
      hide CallNext, PassNext;
    } else if OfCall(step) {
      hide OutsideNext, PassNext, AfterOutcome, MayAnswer, SentBefore;
    } else {
      hide OutsideNext, CallNext, Outdated, CreateRecord;
    }
  }

  /** An answer counts only for a dispatcher that is still owner once it has it. */
  lemma AnswerIsConfirmedIff(s: State, t: Token)
    requires At(s, t).Answered?
    ensures At(Next(s, Recheck(t)), t) ==
            if s.owner == Some(t) then Confirmed(At(s, t).pending, At(s, t).record, At(s, t).recovery, At(s, t).outcome) else Resting
  {
    hide OutsideNext, PassNext;
  }

  /** The stored record changes by its owner's hand, or expires. */
  lemma RecordChangesBy(s: State, step: Step)
    ensures Next(s, step).record != s.record ==>
              (step.RecordExpires? && Next(s, step).record == None) ||
              ((step.Settle? || step.Gate? || step.Decide? || step.Finish?) && s.owner == Some(step.t))
  {
    if Outside(step) {
      hide CallNext, PassNext;
    } else if OfCall(step) {
      hide OutsideNext, PassNext, AfterOutcome, MayAnswer, SentBefore;
    } else {
      hide OutsideNext, CallNext, Outdated, CreateRecord;
    }
  }

  // ------------------------------------------------ what an unbroken log says

  ghost predicate Sound(log: seq<Entry>) {
    forall l: nat :: PhaseOf(log, l) != Broken
  }

  lemma {:induction false} PrefixSound(log: seq<Entry>, n: nat)
    requires Sound(log) && n <= |log|
    ensures Sound(log[..n])
    decreases |log|
  {
    if n < |log| {
      var most := log[..|log| - 1];
      forall l: nat ensures PhaseOf(most, l) != Broken {
        assert PhaseOf(log, l) != Broken;
      }
      PrefixSound(most, n);
      assert most[..n] == log[..n];
    } else {
      assert log[..n] == log;
    }
  }

  /** log[j] marks the record of log[i] for the same owner, and nothing touches that life between. */
  ghost predicate MarkedJustBefore(log: seq<Entry>, j: nat, i: nat, e: Entry) {
    && j < i <= |log|
    && log[j] == e.(kind := Marks)
    && (forall k :: j < k < i ==> log[k].life != e.life)
  }

  lemma {:induction false} MarkedPhaseHasMark(log: seq<Entry>, e: Entry)
    requires PhaseOf(log, e.life) == MarkedBy(e.token, e.op)
    ensures exists j: nat :: MarkedJustBefore(log, j, |log|, e)
    decreases |log|
  {
    var n := |log| - 1;
    if log[n].life == e.life {
      assert MarkedJustBefore(log, n, |log|, e);
    } else {
      MarkedPhaseHasMark(log[..n], e);
      var j: nat :| MarkedJustBefore(log[..n], j, n, e);
      assert MarkedJustBefore(log, j, |log|, e);
    }
  }

  ghost predicate ResetBetween(log: seq<Entry>, i: nat, j: nat, n: nat) {
    i < j < n <= |log| && log[j] == log[i].(kind := Resets)
  }

  lemma {:induction false} CallHoldsUntilReset(log: seq<Entry>, i: nat)
    requires Sound(log) && i < |log| && log[i].kind == Calls
    ensures (exists j: nat :: ResetBetween(log, i, j, |log|)) ||
            (var p := PhaseOf(log, log[i].life); p.CalledBy? && p.t == log[i].token && p.op == log[i].op)
    decreases |log|
  {
    var n := |log| - 1;
    var life := log[i].life;
    assert PhaseOf(log, life) != Broken;
    if i < n {
      PrefixSound(log, n);
      CallHoldsUntilReset(log[..n], i);
      if j: nat :| ResetBetween(log[..n], i, j, n) {
        assert ResetBetween(log, i, j, |log|);
      } else if log[n].life == life && log[n].kind == Resets {
        assert ResetBetween(log, i, n, |log|);
      }
    }
  }

  function SendsOf(log: seq<Entry>, life: nat): nat {
    if log == [] then 0 else
    SendsOf(log[..|log| - 1], life) + if log[|log| - 1].life == life && log[|log| - 1].kind == Sends then 1 else 0
  }

  lemma {:induction false} SentAtMostOnce(log: seq<Entry>, life: nat)
    requires Sound(log)
    ensures SendsOf(log, life) == (if PhaseOf(log, life).CalledBy? && PhaseOf(log, life).sent then 1 else 0)
    decreases |log|
  {
    if log != [] {
      PrefixSound(log, |log| - 1);
      SentAtMostOnce(log[..|log| - 1], life);
      assert PhaseOf(log, life) != Broken;
    }
  }

  /**
   * Over every run: a non-recovery call directly follows, within its record's
   * life, the durable "submitting" of the same dispatcher; a second such call
   * in one life comes only after a durable reset of the first; and one life
   * hands at most one prompt to the host.
   */
  lemma CallsAreWrittenAhead(steps: seq<Step>)
    ensures var log := Run(Start, steps).log;
            && (forall i: nat :: i < |log| && log[i].kind == Calls ==> exists j: nat :: MarkedJustBefore(log, j, i, log[i]))
            && (forall i: nat, k: nat :: i < k < |log| && log[i].kind == Calls && log[k].kind == Calls && log[i].life == log[k].life
                  ==> exists j: nat :: ResetBetween(log, i, j, k))
            && (forall life: nat :: SendsOf(log, life) <= 1)
  {
    hide Run, Next;
    RunKeepsInv(Start, steps);
    var log := Run(Start, steps).log;
    assert Sound(log);
    forall i: nat | i < |log| && log[i].kind == Calls ensures exists j: nat :: MarkedJustBefore(log, j, i, log[i]) {
      CallIsMarked(log, i);
    }
    forall i: nat, k: nat | i < k < |log| && log[i].kind == Calls && log[k].kind == Calls && log[i].life == log[k].life
      ensures exists j: nat :: ResetBetween(log, i, j, k)
    {
      CallIsMarkedPhase(log, k);
      PrefixSound(log, k);
      CallHoldsUntilReset(log[..k], i);
      var j: nat :| ResetBetween(log[..k], i, j, k);
      assert ResetBetween(log, i, j, k);
    }
    forall life: nat ensures SendsOf(log, life) <= 1 { SentAtMostOnce(log, life); }
  }

  lemma CallIsMarkedPhase(log: seq<Entry>, i: nat)
    requires Sound(log) && i < |log| && log[i].kind == Calls
    ensures PhaseOf(log[..i], log[i].life) == MarkedBy(log[i].token, log[i].op)
  {
    PrefixSound(log, i + 1);
    assert log[..i + 1][..i] == log[..i];
    assert PhaseOf(log[..i + 1], log[i].life) != Broken;
  }

  lemma CallIsMarked(log: seq<Entry>, i: nat)
    requires Sound(log) && i < |log| && log[i].kind == Calls
    ensures exists j: nat :: MarkedJustBefore(log, j, i, log[i])
  {
    CallIsMarkedPhase(log, i);
    MarkedPhaseHasMark(log[..i], log[i]);
    var j: nat :| MarkedJustBefore(log[..i], j, i, log[i]);
    assert MarkedJustBefore(log, j, i, log[i]);
  }

  // ------------------------- no further attempt while the last one is at work

  /** What the adapters' answers say: completed only if the host shows the operation, its turn over. */
  predicate HostTellsEnds(s: State, step: Step) {
    step.Return? && At(s, step.t).InCall? && step.outcome == Completed ==>
      At(s, step.t).seen == Found && At(s, step.t).record.op in s.ended
  }

  /** A record of a further attempt was brought about by the end of the attempt before it. */
  ghost predicate Justified(s: State, r: Record) {
    && r.op.attempt == r.attempt
    && (r.attempt > 1 ==> r.after.Some? && r.after.value in s.ended && r.after.value.attempt == r.attempt - 1)
  }

  ghost predicate StageJustified(s: State, stage: Stage) {
    match stage
    case Loaded(_, found) => found.Some? ==> Justified(s, found.value)
    case Settled(_, found) => found.Some? ==> Justified(s, found.value)
    case Ready(_, r) => Justified(s, r)
    case Marked(_, r) => Justified(s, r)
    case InCall(_, r, _, _) => Justified(s, r)
    case Answered(_, r, _, outcome) => Justified(s, r) && (outcome == Completed ==> r.op in s.ended)
    case Confirmed(_, r, _, outcome) => Justified(s, r) && (outcome == Completed ==> r.op in s.ended)
    case _ => true
  }

  ghost predicate AllJustified(s: State) {
    && (s.record.Some? ==> Justified(s, s.record.value))
    && (forall t :: t in s.runs ==> StageJustified(s, s.runs[t]))
  }

  /** Ends are not taken back. */
  ghost predicate Keeps(s: State, s': State) {
    s.ended <= s'.ended
  }

  lemma KeepsJustified(s: State, s': State)
    requires Keeps(s, s')
    ensures forall r :: Justified(s, r) ==> Justified(s', r)
    ensures forall stage :: StageJustified(s, stage) ==> StageJustified(s', stage)
  {
    forall r | Justified(s, r) ensures Justified(s', r) {}
    hide Justified, Keeps;
    forall stage | StageJustified(s, stage) ensures StageJustified(s', stage) {}
  }

  /** Steps in which a dispatcher t moves on with the record it has, and changes the stored one at most in its state. */
  lemma MoverJustified(s: State, s': State, t: Token)
    requires AllJustified(s) && Keeps(s, s')
    requires s'.record.Some? ==> s'.record == s.record || Justified(s', s'.record.value)
    requires t in s'.runs && StageJustified(s', s'.runs[t])
    requires forall u :: u in s'.runs && u != t ==>
               u in s.runs && (s'.runs[u] == s.runs[u] ||
               (s.runs[u].InCall? && s'.runs[u].InCall? && s'.runs[u].record == s.runs[u].record))
    ensures AllJustified(s')
  {
    KeepsJustified(s, s');
    forall u | u in s'.runs ensures StageJustified(s', s'.runs[u]) {
      if u != t {
        assert StageJustified(s, s.runs[u]);
        hide Justified;
      }
    }
  }

  lemma SettleKeepsJustified(s: State, step: Step)
    requires AllJustified(s) && (step.Load? || step.Settle?)
    ensures AllJustified(Next(s, step))
  {
    hide CallNext, OutsideNext;
    hide Outdated;
    var s', t := Next(s, step), step.t;
    if s' != s {
      assert Keeps(s, s') && StageJustified(s, s.runs[t]);
      KeepsJustified(s, s');
      hide Justified, Keeps;
      MoverJustified(s, s', t);
    }
  }

  lemma GateKeepsJustified(s: State, step: Step)
    requires AllJustified(s) && step.Gate?
    ensures AllJustified(Next(s, step))
  {
    hide CallNext, OutsideNext;
    var s', t := Next(s, step), step.t;
    if s' != s {
      assert Keeps(s, s') && StageJustified(s, s.runs[t]);
      KeepsJustified(s, s');
      assert Justified(s', CreateRecord(s.lives, s.runs[t].pending, 1));
      hide Justified, Keeps, CreateRecord;
      MoverJustified(s, s', t);
    }
  }

  lemma DecideKeepsJustified(s: State, step: Step)
    requires AllJustified(s) && step.Decide?
    ensures AllJustified(Next(s, step))
  {
    hide CallNext, OutsideNext;
    var s', t := Next(s, step), step.t;
    if s' != s {
      assert Keeps(s, s') && StageJustified(s, s.runs[t]);
      KeepsJustified(s, s');
      var r := s.runs[t].record;
      assert Justified(s', r) && Justified(s', r.(state := Submitting));
      hide Justified, Keeps;
      MoverJustified(s, s', t);
    }
  }

  lemma BeginKeepsJustified(s: State, step: Step)
    requires AllJustified(s) && step.BeginCall?
    ensures AllJustified(Next(s, step))
  {
    var s', t := Next(s, step), step.t;
    if s' != s {
      assert Keeps(s, s') && StageJustified(s, s.runs[t]);
      KeepsJustified(s, s');
      hide Justified, Keeps;
      MoverJustified(s, s', t);
    }
  }

  lemma CallKeepsJustified(s: State, step: Step)
    requires AllJustified(s) && HostTellsEnds(s, step)
    requires step.Look? || step.Recall? || step.Send? || step.Return? || step.Recheck?
    ensures AllJustified(Next(s, step))
  {
    hide PassNext, OutsideNext;
    hide MayAnswer, SentBefore;
    var s', t := Next(s, step), step.t;
    if s' != s {
      assert Keeps(s, s') && t in s.runs && StageJustified(s, s.runs[t]);
      KeepsJustified(s, s');
      hide Justified, Keeps;
      MoverJustified(s, s', t);
    }
  }

  lemma FinishKeepsJustified(s: State, step: Step)
    requires AllJustified(s) && step.Finish?
    ensures AllJustified(Next(s, step))
  {
    var s', t := Next(s, step), step.t;
    if s' != s {
      assert StageJustified(s, s.runs[t]);
      assert Keeps(s, s');
      var r, outcome := s.runs[t].record, s.runs[t].outcome;
      if s.owner == Some(t) {
        AnswerJustified(s, s', r, s.runs[t].pending, outcome, step.maximum);
      }
      hide Justified, Keeps, AfterOutcome;
      MoverJustified(s, s', t);
    }
  }

  lemma AnswerJustified(s: State, s': State, r: Record, pending: seq<MessageId>, outcome: Outcome, maximum: int)
    requires Justified(s, r) && Keeps(s, s') && outcome != Threw && (outcome == Completed ==> r.op in s.ended)
    ensures Justified(s', AfterOutcome(r, pending, outcome, maximum, s.lives))
  {
  }

  lemma ShellKeepsJustified(s: State, step: Step)
    requires AllJustified(s)
    requires step.Attach? || step.Refresh? || step.ReadPending? || step.Abandon? || step.Detach?
    ensures AllJustified(Next(s, step))
  {
    hide CallNext, OutsideNext;
    var s', t := Next(s, step), step.t;
    if s' != s {
      assert Keeps(s, s');
      hide Justified, Keeps;
      MoverJustified(s, s', t);
    }
  }

  lemma OutsideKeepsJustified(s: State, step: Step)
    requires AllJustified(s)
    requires Outside(step)
    ensures AllJustified(Next(s, step))
  {
    var s' := Next(s, step);
    OutsideFrame(s, step);
    hide Next;
    assert Keeps(s, s');
    KeepsJustified(s, s');
    hide Justified, Keeps;
    forall t | t in s'.runs ensures StageJustified(s', s'.runs[t]) { assert StageJustified(s, s.runs[t]); }
  }

  lemma StepKeepsJustified(s: State, step: Step)
    requires AllJustified(s) && HostTellsEnds(s, step)
    ensures AllJustified(Next(s, step))
  {
    hide AllJustified, Next, HostTellsEnds;
    if step.Load? || step.Settle? {
      SettleKeepsJustified(s, step);
    } else if step.Gate? {
      GateKeepsJustified(s, step);
    } else if step.Decide? {
      DecideKeepsJustified(s, step);
    } else if step.BeginCall? {
      BeginKeepsJustified(s, step);
    } else if step.Look? || step.Recall? || step.Send? || step.Return? || step.Recheck? {
      CallKeepsJustified(s, step);
    } else if step.Finish? {
      FinishKeepsJustified(s, step);
    } else if Outside(step) {
      OutsideKeepsJustified(s, step);
    } else {
      ShellKeepsJustified(s, step);
    }
  }

  lemma {:induction false} RunKeepsJustified(s: State, steps: seq<Step>)
    requires AllJustified(s) && Throughout(s, steps, HostTellsEnds)
    ensures AllJustified(Run(s, steps))
    decreases |steps|
  {
    hide Next, AllJustified;
    if steps != [] {
      StepKeepsJustified(s, steps[0]);
      RunKeepsJustified(Next(s, steps[0]), steps[1..]);
    }
  }

  /**
   * Over every run of any dispatchers with crashes and expiries, at a host
   * that is believed only when it shows a turn over: nobody marks, makes or
   * sends the call of a further attempt before the attempt that its record
   * follows has ended.
   */
  lemma FurtherAttemptsWaitForTheLast(steps: seq<Step>, step: Step)
    requires Throughout(Start, steps, HostTellsEnds)
    requires step.Decide? || step.BeginCall? || step.Send?
    ensures var s := Run(Start, steps);
            |Next(s, step).log| > |s.log| ==>
              var r := At(s, step.t).record;
              && Next(s, step).log[|Next(s, step).log| - 1].op == r.op && r.op.attempt == r.attempt
              && (r.attempt > 1 ==> r.after.Some? && r.after.value in s.ended && r.after.value.attempt == r.attempt - 1)
  {
    RunKeepsJustified(Start, steps);
    var s := Run(Start, steps);
    LogsItsRecord(s, step);
    hide Run, Next, Throughout;
    if |Next(s, step).log| > |s.log| { assert StageJustified(s, s.runs[step.t]); }
  }

  lemma LogsItsRecord(s: State, step: Step)
    requires step.Decide? || step.BeginCall? || step.Send?
    ensures |Next(s, step).log| > |s.log| ==>
              && step.t in s.runs && (s.runs[step.t].Ready? || s.runs[step.t].Marked? || s.runs[step.t].InCall?)
              && Next(s, step).log[|Next(s, step).log| - 1].op == s.runs[step.t].record.op
  {
    hide Overtake, OutsideNext;
  }

  /** Only these three steps log anything but a reset. */
  lemma OnlyTheseLog(s: State, step: Step)
    requires !step.Decide? && !step.BeginCall? && !step.Send?
    ensures var s' := Next(s, step);
            |s'.log| > |s.log| ==> step.Finish? && s'.log[|s'.log| - 1].kind == Resets
  {
    if Outside(step) { OutsideFrame(s, step); hide Next; }
    hide Outdated, AfterOutcome, MayAnswer, SentBefore;
  }

  // ---------------------------------------- at most one prompt per operation

  /**
   * The host the adapters assume: its history shows exactly the accepted
   * prompts, and it accepts none that was under way when a read missed it.
   */
  predicate HostKeepsPremise(s: State, step: Step) {
    step.Look? && At(s, step.t).InCall? ==>
      (step.shown <==> s.accepted[At(s, step.t).record.op] > 0) && (!step.shown ==> step.purge)
  }

  /** No other call has sent the same operation since this one read the history. */
  predicate NotOvertaken(s: State, step: Step) {
    step.Send? && At(s, step.t).InCall? && !At(s, step.t).recovery ==> At(s, step.t).seen != Missed(true)
  }

  /** The sender still owns the inbox as it sends: a fence the code does not have. */
  predicate SentAsOwner(s: State, step: Step) {
    step.Send? ==> s.owner == Some(step.t)
  }

  function Copies(s: State, op: Op): nat {
    s.accepted[op] + s.inflight[op]
  }

  ghost predicate OncePerOp(s: State) {
    && (forall op :: Copies(s, op) <= 1)
    && (forall t :: t in s.runs && s.runs[t].InCall? && s.runs[t].seen == Missed(false) ==> Copies(s, s.runs[t].record.op) == 0)
  }

  /** Steps other than Look and Send leave every call that has missed as it was, or end it. */
  lemma OtherStepsKeepMisses(s: State, step: Step, t: Token)
    requires !step.Look? && !step.Send? && t in Next(s, step).runs
    ensures var stage := Next(s, step).runs[t];
            stage.InCall? && stage.seen.Missed? ==> t in s.runs && s.runs[t] == stage
  {
    if Outside(step) {
      OutsideFrame(s, step);
      hide Next;
    } else if OfCall(step) {
      hide AfterOutcome, SentBefore, KeepsContract, PassNext;
    } else {
      hide Outdated, CreateRecord, CallNext;
    }
  }

  lemma SendKeepsOncePerOp(s: State, step: Step)
    requires OncePerOp(s) && step.Send? && NotOvertaken(s, step)
    ensures OncePerOp(Next(s, step))
  {
    var s' := Next(s, step);
    if s' != s {
      var op := s.runs[step.t].record.op;
      assert s.runs[step.t].seen == Missed(false) && Copies(s, op) == 0;
      forall o ensures Copies(s', o) == if o == op then 1 else Copies(s, o) {}
    }
  }

  lemma OtherStepAddsNoCopy(s: State, step: Step, op: Op)
    requires !step.Look? && !step.Send?
    ensures Copies(Next(s, step), op) <= Copies(s, op)
  {
    hide Outdated, AfterOutcome;
  }

  lemma OtherStepKeepsOncePerOp(s: State, step: Step)
    requires OncePerOp(s) && !step.Look? && !step.Send?
    ensures OncePerOp(Next(s, step))
  {
    hide Next;
    var s' := Next(s, step);
    forall op ensures Copies(s', op) <= Copies(s, op) { OtherStepAddsNoCopy(s, step, op); }
    forall t | t in s'.runs && s'.runs[t].InCall? && s'.runs[t].seen == Missed(false)
      ensures Copies(s', s'.runs[t].record.op) == 0
    {
      OtherStepsKeepMisses(s, step, t);
    }
  }

  lemma LookKeepsOncePerOp(s: State, step: Step)
    requires OncePerOp(s) && step.Look? && HostKeepsPremise(s, step)
    ensures OncePerOp(Next(s, step))
  {
    var s' := Next(s, step);
    if s' != s {
      var op := s.runs[step.t].record.op;
      forall o ensures Copies(s', o) <= Copies(s, o) {}
      assert !step.shown ==> Copies(s', op) == 0;
    }
  }

  ghost predicate Throughout(s: State, steps: seq<Step>, fair: (State, Step) -> bool)
    decreases |steps|
  {
    steps == [] || (fair(s, steps[0]) && Throughout(Next(s, steps[0]), steps[1..], fair))
  }

  lemma {:induction false} RunKeepsOncePerOp(s: State, steps: seq<Step>)
    requires OncePerOp(s)
    requires Throughout(s, steps, HostKeepsPremise) && Throughout(s, steps, NotOvertaken)
    ensures OncePerOp(Run(s, steps))
    decreases |steps|
  {
    hide OncePerOp, Next;
    if steps != [] {
      if steps[0].Send? { SendKeepsOncePerOp(s, steps[0]); }
      else if steps[0].Look? { LookKeepsOncePerOp(s, steps[0]); }
      else { OtherStepKeepsOncePerOp(s, steps[0]); }
      RunKeepsOncePerOp(Next(s, steps[0]), steps[1..]);
    }
  }

  /**
   * Across dispatchers, crashes, expiries and re-created records, a host that
   * keeps its premise accepts each operation's prompt at most once, provided
   * no call sends after another call sent the operation behind its back.
   */
  lemma EachOperationAcceptedOnce(steps: seq<Step>, op: Op)
    requires Throughout(Start, steps, HostKeepsPremise) && Throughout(Start, steps, NotOvertaken)
    ensures Run(Start, steps).accepted[op] <= 1
  {
    RunKeepsOncePerOp(Start, steps);
    assert Copies(Run(Start, steps), op) <= 1;
  }

  // A call that sends while its dispatcher still owns the inbox is not overtaken.

  ghost predicate OwnerNotOvertaken(s: State) {
    s.owner.Some? ==>
      s.owner.value in s.runs &&
      !(s.runs[s.owner.value].InCall? && s.runs[s.owner.value].seen == Missed(true))
  }

  lemma OwnedSendKeepsOwner(s: State, step: Step)
    requires OwnerNotOvertaken(s) && SentAsOwner(s, step) && step.Send?
    ensures OwnerNotOvertaken(Next(s, step)) && NotOvertaken(s, step)
  {
  }

  lemma OtherStepKeepsOwner(s: State, step: Step)
    requires OwnerNotOvertaken(s) && !step.Send?
    ensures OwnerNotOvertaken(Next(s, step))
  {
    if Outside(step) {
      OutsideFrame(s, step);
      hide Next;
    } else if OfCall(step) {
      hide AfterOutcome, SentBefore, KeepsContract, PassNext;
    } else {
      hide Outdated, CreateRecord, CallNext;
    }
  }

  lemma {:induction false} OwnedSendsAreNotOvertaken(s: State, steps: seq<Step>)
    requires OwnerNotOvertaken(s) && Throughout(s, steps, SentAsOwner)
    ensures Throughout(s, steps, NotOvertaken)
    decreases |steps|
  {
    hide Next, OwnerNotOvertaken;
    if steps != [] {
      if steps[0].Send? { OwnedSendKeepsOwner(s, steps[0]); } else { OtherStepKeepsOwner(s, steps[0]); }
      OwnedSendsAreNotOvertaken(Next(s, steps[0]), steps[1..]);
    }
  }

  /** So a lease that outlives every call suffices. */
  lemma OwnedSendsAreAcceptedOnce(steps: seq<Step>, op: Op)
    requires Throughout(Start, steps, HostKeepsPremise) && Throughout(Start, steps, SentAsOwner)
    ensures Run(Start, steps).accepted[op] <= 1
  {
    OwnedSendsAreNotOvertaken(Start, steps);
    EachOperationAcceptedOnce(steps, op);
  }

  // The condition is exact: at a host that takes prompts as they are sent,
  // an operation is accepted twice precisely when some sender was overtaken.

  predicate EagerHost(s: State, step: Step) {
    HostKeepsPremise(s, step) && (step.Send? ==> step.atOnce)
  }

  /** What an eager host and its callers know: a missed operation was accepted since iff overtaken. */
  ghost predicate EagerInv(s: State) {
    && s.inflight == multiset{}
    && (forall t :: t in s.runs && s.runs[t].InCall? && s.runs[t].seen.Missed? ==>
          (s.runs[t].seen.overtaken <==> s.accepted[s.runs[t].record.op] > 0))
  }

  lemma EagerSend(s: State, step: Step)
    requires EagerInv(s) && EagerHost(s, step) && step.Send?
    ensures EagerInv(Next(s, step))
    ensures forall op :: Next(s, step).accepted[op] >= s.accepted[op]
    ensures (forall op :: s.accepted[op] <= 1) ==>
              ((forall op :: Next(s, step).accepted[op] <= 1) <==> NotOvertaken(s, step))
  {
    var s' := Next(s, step);
    if s' != s {
      var op := s.runs[step.t].record.op;
      forall o ensures s'.accepted[o] == if o == op then s.accepted[o] + 1 else s.accepted[o] {}
    } else {
      assert NotOvertaken(s, step);
    }
  }

  lemma EagerLook(s: State, step: Step)
    requires EagerInv(s) && EagerHost(s, step) && step.Look?
    ensures EagerInv(Next(s, step)) && Next(s, step).accepted == s.accepted
  {
  }

  lemma EagerOther(s: State, step: Step)
    requires EagerInv(s) && !step.Send? && !step.Look?
    ensures EagerInv(Next(s, step)) && Next(s, step).accepted == s.accepted
  {
    var s' := Next(s, step);
    assert s'.accepted == s.accepted && s'.inflight == s.inflight by {
      hide Outdated, AfterOutcome;
    }
    hide Next;
    forall t | t in s'.runs && s'.runs[t].InCall? && s'.runs[t].seen.Missed?
      ensures s'.runs[t].seen.overtaken <==> s'.accepted[s'.runs[t].record.op] > 0
    {
      OtherStepsKeepMisses(s, step, t);
    }
  }

  lemma EagerStep(s: State, step: Step)
    requires EagerInv(s) && EagerHost(s, step)
    ensures EagerInv(Next(s, step))
    ensures forall op :: Next(s, step).accepted[op] >= s.accepted[op]
    ensures (forall op :: s.accepted[op] <= 1) ==>
              ((forall op :: Next(s, step).accepted[op] <= 1) <==> NotOvertaken(s, step))
  {
    hide EagerInv, Next;
    if step.Send? { EagerSend(s, step); }
    else if step.Look? { EagerLook(s, step); }
    else { EagerOther(s, step); }
  }

  lemma {:induction false} EagerRunOnlyAccepts(s: State, steps: seq<Step>, op: Op)
    requires EagerInv(s) && Throughout(s, steps, EagerHost)
    ensures Run(s, steps).accepted[op] >= s.accepted[op]
    decreases |steps|
  {
    hide EagerInv, Next;
    if steps != [] {
      EagerStep(s, steps[0]);
      EagerRunOnlyAccepts(Next(s, steps[0]), steps[1..], op);
    }
  }

  lemma {:induction false} EagerRun(s: State, steps: seq<Step>)
    requires EagerInv(s) && Throughout(s, steps, EagerHost) && forall op :: s.accepted[op] <= 1
    ensures (forall op :: Run(s, steps).accepted[op] <= 1) <==> Throughout(s, steps, NotOvertaken)
    decreases |steps|
  {
    hide EagerInv, Next;
    if steps != [] {
      var s1 := Next(s, steps[0]);
      EagerStep(s, steps[0]);
      assert Run(s, steps) == Run(s1, steps[1..]);
      assert Throughout(s, steps, NotOvertaken) <==>
             NotOvertaken(s, steps[0]) && Throughout(s1, steps[1..], NotOvertaken);
      if NotOvertaken(s, steps[0]) {
        EagerRun(s1, steps[1..]);
      } else {
        var op :| s1.accepted[op] > 1;
        EagerRunOnlyAccepts(s1, steps[1..], op);
        assert Run(s, steps).accepted[op] > 1;
      }
    }
  }

  /** At an eager host nothing is accepted twice exactly when no sender was overtaken. */
  lemma AcceptedTwiceIffOvertaken(steps: seq<Step>)
    requires Throughout(Start, steps, EagerHost)
    ensures (forall op :: Run(Start, steps).accepted[op] <= 1) <==> Throughout(Start, steps, NotOvertaken)
  {
    EagerRun(Start, steps);
  }

  // ------------------------------ the send is not fenced: a run that repeats it

  lemma {:induction false} RunSplits(s: State, a: seq<Step>, b: seq<Step>)
    ensures Run(s, a + b) == Run(Run(s, a), b)
    decreases |a|
  {
    if a == [] {
      assert a + b == b;
    } else {
      assert (a + b)[0] == a[0] && (a + b)[1..] == a[1..] + b;
      RunSplits(Next(s, a[0]), a[1..], b);
    }
  }

  lemma {:induction false} ThroughoutSplits(s: State, a: seq<Step>, b: seq<Step>, fair: (State, Step) -> bool)
    requires Throughout(s, a, fair) && Throughout(Run(s, a), b, fair)
    ensures Throughout(s, a + b, fair)
    decreases |a|
  {
    hide Next;
    if a == [] {
      assert a + b == b;
    } else {
      assert (a + b)[0] == a[0] && (a + b)[1..] == a[1..] + b;
      ThroughoutSplits(Next(s, a[0]), a[1..], b, fair);
    }
  }

  /** Some run at an eager host leads from s to s'. */
  ghost predicate Reaches(s: State, s': State) {
    exists steps: seq<Step> :: Throughout(s, steps, EagerHost) && Run(s, steps) == s'
  }

  lemma ReachesByStep(s: State, s': State, step: Step)
    requires Reaches(s, s') && EagerHost(s', step)
    ensures Reaches(s, Next(s', step))
  {
    hide Next, EagerHost;
    var steps: seq<Step> :| Throughout(s, steps, EagerHost) && Run(s, steps) == s';
    assert [step][1..] == [];
    assert Throughout(Next(s', step), [], EagerHost) && Run(Next(s', step), []) == Next(s', step);
    assert Throughout(s', [step], EagerHost) && Run(s', [step]) == Next(s', step);
    RunSplits(s, steps, [step]);
    ThroughoutSplits(s, steps, [step], EagerHost);
    assert Throughout(s, steps + [step], EagerHost);
  }

  predicate Rested(s: State, t: Token) {
    t in s.runs && s.runs[t] == Resting && s.owner == Some(t)
  }

  lemma ReachesLoaded(o: State, s: State, t: Token, ids: seq<MessageId>)
    requires Reaches(o, s) && Rested(s, t)
    ensures Reaches(o, Move(s, t, Loaded(ids, s.record)))
  {
    hide Reaches, Outdated, AfterOutcome;
    ReachesByStep(o, s, Refresh(t));
    ReachesByStep(o, Move(s, t, Owning), ReadPending(t, ids));
    assert Next(Move(s, t, Owning), ReadPending(t, ids)) == Move(s, t, Listed(ids));
    ReachesByStep(o, Move(s, t, Listed(ids)), Load(t));
    assert Next(Move(s, t, Listed(ids)), Load(t)) == Move(s, t, Loaded(ids, s.record));
  }

  /** A pass over an empty inbox clears the record. */
  lemma ReachesCleared(o: State, s: State, t: Token)
    requires Reaches(o, s) && Rested(s, t)
    ensures Reaches(o, s.(record := None))
  {
    hide Reaches, Outdated, AfterOutcome;
    ReachesLoaded(o, s, t, []);
    var s1 := Move(s, t, Loaded([], s.record));
    ReachesByStep(o, s1, Settle(t));
    var s2 := Move(s, t, Settled([], None)).(record := None);
    assert Next(s1, Settle(t)) == s2;
    ReachesByStep(o, s2, Gate(t, false));
    assert Next(s2, Gate(t, false)) == s.(record := None);
  }

  /** A pass over new messages marks a fresh record. */
  lemma ReachesMarked(o: State, s: State, t: Token, ids: seq<MessageId>) returns (s': State)
    requires Reaches(o, s) && Rested(s, t) && s.record == None && ids != []
    ensures var r := CreateRecord(s.lives, ids, 1);
            Reaches(o, s') && s'.runs == s.runs[t := Marked(ids, r)] && s'.lives == s.lives + 1 &&
            s'.accepted == s.accepted && s'.inflight == s.inflight && s'.owner == s.owner
  {
    hide Reaches, Outdated, AfterOutcome, CallNext, OutsideNext;
    var r := CreateRecord(s.lives, ids, 1);
    ReachesLoaded(o, s, t, ids);
    var s1 := Move(s, t, Loaded(ids, None));
    ReachesByStep(o, s1, Settle(t));
    var s2 := Move(s, t, Settled(ids, None));
    SettledPart(s, t, ids);
    assert Next(s1, Settle(t)) == s2;
    ReachesByStep(o, s2, Gate(t, false));
    var s3 := Move(s, t, Ready(ids, r)).(record := Some(r), lives := s.lives + 1);
    GatedPart(s2, t, ids, false);
    assert Next(s2, Gate(t, false)) == s3;
    DecidedPart(s3, t, ids, r);
    hide Next;
    ReachesByStep(o, s3, Decide(t, false));
    s' := Next(s3, Decide(t, false));
  }

  lemma DecidedPart(s: State, t: Token, pending: seq<MessageId>, r: Record)
    requires t in s.runs && s.runs[t] == Ready(pending, r) && s.owner == Some(t) && r.state == Pending
    ensures var s' := Next(s, Decide(t, false));
            s'.runs == s.runs[t := Marked(pending, r)] && s'.lives == s.lives && s'.accepted == s.accepted &&
            s'.inflight == s.inflight && s'.owner == s.owner
  {
    hide CallNext, OutsideNext;
  }

  /** A call that reads a history without its operation. */
  lemma ReachesMiss(o: State, s: State, t: Token) returns (s': State)
    requires Reaches(o, s) && At(s, t).Marked? && s.accepted[At(s, t).record.op] == 0
    ensures var stage := At(s, t);
            Reaches(o, s') && s'.runs == s.runs[t := InCall(stage.pending, stage.record, false, Missed(false))] &&
            s'.accepted == s.accepted && s'.owner == s.owner && s'.lives == s.lives && s'.record == s.record
  {
    hide Reaches, Outdated, AfterOutcome;
    ReachesByStep(o, s, BeginCall(t));
    var s1 := Next(s, BeginCall(t));
    ReachesByStep(o, s1, Look(t, false, true));
    s' := Next(s1, Look(t, false, true));
  }

  /** The owner key expires, a new dispatcher attaches and finds the inbox empty. */
  lemma ReachesTakeOver(o: State, s: State, t: Token)
    requires Reaches(o, s) && t !in s.runs
    ensures Reaches(o, Move(s, t, Resting).(owner := Some(t), record := None))
  {
    hide Reaches, Outdated, AfterOutcome;
    ReachesByStep(o, s, OwnerExpires);
    ReachesByStep(o, s.(owner := None), Attach(t));
    var s1 := Move(s, t, Resting).(owner := Some(t));
    assert Next(s.(owner := None), Attach(t)) == s1;
    ReachesCleared(o, s1, t);
  }

  lemma ReachesSend(o: State, s: State, t: Token) returns (s': State)
    requires Reaches(o, s) && At(s, t).InCall? && !At(s, t).recovery && At(s, t).seen.Missed?
    ensures var op := At(s, t).record.op;
            Reaches(o, s') && s'.accepted == s.accepted + multiset{op} &&
            s'.runs == Overtake(s.runs, op)[t := At(s, t).(seen := SentPrompt)]
  {
    hide Reaches;
    ReachesByStep(o, s, Send(t, true));
    s' := Next(s, Send(t, true));
  }

  /**
   * Short of the fence nothing helps: from every state in which a call has
   * missed a first-attempt operation and not sent it, however it got there,
   * some run at an eager host accepts the operation twice. Its owner key
   * expires before it sends; another dispatcher sees the inbox empty for a
   * moment (the messages are claimed and come back), re-creates the record,
   * and both send. OwnedSendsAreAcceptedOnce says that the fence does help.
   */
  lemma UnfencedSendCanRepeat(s: State, t: Token, u: Token, ids: seq<MessageId>) returns (steps: seq<Step>)
    requires At(s, t).InCall? && !At(s, t).recovery && At(s, t).seen.Missed? && u !in s.runs
    requires ids != [] && At(s, t).record.op == Op(multiset(ids), 1) && s.accepted[Op(multiset(ids), 1)] == 0
    ensures Throughout(s, steps, EagerHost) && Run(s, steps).accepted[Op(multiset(ids), 1)] == 2
  {
    assert Reaches(s, s) by { assert Throughout(s, [], EagerHost) && Run(s, []) == s; }
    hide Reaches, Next, Run, Throughout;
    var s4 := Move(s, u, Resting).(owner := Some(u), record := None);
    ReachesTakeOver(s, s, u);
    var s5 := ReachesMarked(s, s4, u, ids);
    var s6 := ReachesMiss(s, s5, u);
    var s7 := ReachesSend(s, s6, u);
    var s8 := ReachesSend(s, s7, t);
    steps := ReachingRun(s, s8);
  }

  /** Together: a run from the very start that repeats the operation. */
  lemma UnfencedSendRepeatsOperation(ids: seq<MessageId>) returns (steps: seq<Step>)
    requires ids != []
    ensures Throughout(Start, steps, EagerHost)
    ensures Run(Start, steps).accepted[Op(multiset(ids), 1)] == 2
  {
    assert Reaches(Start, Start) by { assert Throughout(Start, [], EagerHost) && Run(Start, []) == Start; }
    hide Reaches, Next, Run, Throughout;
    var s1 := Move(Start, 0, Resting).(owner := Some(0), record := None);
    ReachesTakeOver(Start, Start, 0);
    var s2 := ReachesMarked(Start, s1, 0, ids);
    var s3 := ReachesMiss(Start, s2, 0);
    var before := ReachingRun(Start, s3);
    var after := UnfencedSendCanRepeat(s3, 0, 1, ids);
    steps := before + after;
    RunSplits(Start, before, after);
    ThroughoutSplits(Start, before, after, EagerHost);
  }

  lemma ReachingRun(s: State, s': State) returns (steps: seq<Step>)
    requires Reaches(s, s')
    ensures Throughout(s, steps, EagerHost) && Run(s, steps) == s'
  {
    steps :| Throughout(s, steps, EagerHost) && Run(s, steps) == s';
  }

  // ---------------------------------- the steps of one pass, taken undisturbed

  /** Refresh, read the inbox and the record, settle it, pass the gate. */
  function GatePart(s: State, t: Token, pass: Pass): State {
    var loaded := Next(Next(Next(s, Refresh(t)), ReadPending(t, pass.pending)), Load(t));
    Next(Next(loaded, Settle(t)), Gate(t, pass.claimed))
  }

  /** What a call exchanges with the host: a read of the history, if it gets that far, its memory, a send. */
  datatype Exchange = Exchange(look: Option<bool>, remembered: bool, delivery: Delivery)

  /** An exchange the adapters make: they send only after a miss, and answer within their contract. */
  predicate Fair(recovery: bool, ex: Exchange, outcome: Outcome) {
    && KeepsContract(recovery, ex.look == Some(true) || ex.remembered, Answer(outcome, ex.delivery))
    && (ex.remembered || ex.delivery == Sent ==> ex.look == Some(false))
    && !(ex.remembered && ex.delivery == Sent)
  }

  /** Look, recall and send, as far as the exchange goes. */
  function ExchangePart(s: State, t: Token, ex: Exchange): State {
    var s1 := if ex.look.Some? then Next(s, Look(t, ex.look.value, !ex.look.value)) else s;
    var s2 := if ex.remembered then Next(s1, Recall(t)) else s1;
    if ex.delivery == Sent then Next(s2, Send(t, true)) else s2
  }

  /** The steps of a call once the adapter is being called. */
  function AnswerPart(s: State, t: Token, pass: Pass, ex: Exchange, maximum: int): State {
    Next(Next(Next(ExchangePart(s, t, ex), Return(t, pass.outcome)), Recheck(t)), Finish(t, maximum))
  }

  /** From the decision to the saved outcome; a step whose turn never comes does nothing. */
  function CallPart(s: State, t: Token, pass: Pass, ex: Exchange, maximum: int): State {
    AnswerPart(Next(Next(s, Decide(t, pass.deferred)), BeginCall(t)), t, pass, ex, maximum)
  }

  /** What the record becomes before the gate. */
  function Kept(record: Option<Record>, pending: seq<MessageId>): Option<Record> {
    if pending == [] || (record.Some? && Outdated(record.value, pending)) then None else record
  }

  lemma LoadedPart(s: State, t: Token, pass: Pass)
    requires Rested(s, t)
    ensures Next(Next(Next(s, Refresh(t)), ReadPending(t, pass.pending)), Load(t)) == Move(s, t, Loaded(pass.pending, s.record))
  {
    hide CallNext, OutsideNext, Outdated;
    assert Next(s, Refresh(t)) == Move(s, t, Owning);
    assert Next(Move(s, t, Owning), ReadPending(t, pass.pending)) == Move(s, t, Listed(pass.pending));
    assert Next(Move(s, t, Listed(pass.pending)), Load(t)) == Move(s, t, Loaded(pass.pending, s.record));
  }

  lemma SettledPart(s: State, t: Token, pending: seq<MessageId>)
    requires Rested(s, t)
    ensures Next(Move(s, t, Loaded(pending, s.record)), Settle(t)) ==
            Move(s, t, Settled(pending, Kept(s.record, pending))).(record := Kept(s.record, pending))
  {
    hide CallNext, OutsideNext, Outdated;
  }

  lemma GatedPart(s: State, t: Token, pending: seq<MessageId>, claimed: bool)
    requires t in s.runs && s.runs[t] == Settled(pending, s.record) && s.owner == Some(t)
    ensures var s' := Next(s, Gate(t, claimed));
            && s'.log == s.log
            && if pending == [] || claimed then s' == Move(s, t, Resting)
               else if s.record.Some? then s' == Move(s, t, Ready(pending, s.record.value))
               else var r := CreateRecord(s.lives, pending, 1);
                    s' == Move(s, t, Ready(pending, r)).(record := Some(r), lives := s.lives + 1)
  {
    hide CallNext, OutsideNext, Outdated, CreateRecord;
  }

  lemma GatePartIsReconcile(s: State, t: Token, pass: Pass)
    requires Rested(s, t)
    ensures var kept := Kept(s.record, pass.pending);
            var s' := GatePart(s, t, pass);
            s'.log == s.log &&
            if pass.pending == [] || pass.claimed then s'.record == kept && Rested(s', t)
            else if kept.Some? then s'.record == kept && s'.runs == s.runs[t := Ready(pass.pending, kept.value)] && s'.lives == s.lives && s'.owner == s.owner
            else var r := CreateRecord(s.lives, pass.pending, 1);
                 s'.record == Some(r) && s'.runs == s.runs[t := Ready(pass.pending, r)] && s'.lives == s.lives + 1 && s'.owner == s.owner
  {
    var kept := Kept(s.record, pass.pending);
    var s2 := Move(s, t, Settled(pass.pending, kept)).(record := kept);
    LoadedPart(s, t, pass);
    SettledPart(s, t, pass.pending);
    hide Next, Kept, CreateRecord;
    GatedPart(s2, t, pass.pending, pass.claimed);
  }

  lemma ExchangeReachesAnswer(s: State, t: Token, pending: seq<MessageId>, r: Record, ex: Exchange, outcome: Outcome)
    requires t in s.runs && s.runs[t] == InCall(pending, r, r.state != Pending, NotYet)
    requires Fair(r.state != Pending, ex, outcome) && (ex.remembered ==> SentBefore(s, t, r.op))
    ensures var s' := ExchangePart(s, t, ex);
            && t in s'.runs && s'.owner == s.owner && s'.record == s.record && s'.lives == s.lives
            && s'.runs[t].InCall? && s'.runs[t] == InCall(pending, r, r.state != Pending, s'.runs[t].seen)
            && MayAnswer(r.state != Pending, s'.runs[t].seen, outcome)
            && |s'.log| >= |s.log| && (r.state != Pending ==> s'.log == s.log)
  {
    hide PassNext, OutsideNext;
    hide Outdated, AfterOutcome;
    var s1 := if ex.look.Some? then Next(s, Look(t, ex.look.value, !ex.look.value)) else s;
    assert s1.log == s.log;
    assert s1.runs[t].seen == if ex.look == None then NotYet else if ex.look.value then Found else Missed(false);
    assert ex.remembered ==> SentBefore(s1, t, r.op);
  }

  lemma AnswerPartSaves(s: State, t: Token, pass: Pass, ex: Exchange, r: Record, maximum: int)
    requires t in s.runs && s.runs[t] == InCall(pass.pending, r, r.state != Pending, NotYet) && s.owner == Some(t)
    requires Fair(r.state != Pending, ex, pass.outcome) && (ex.remembered ==> SentBefore(s, t, r.op))
    ensures var s' := AnswerPart(s, t, pass, ex, maximum);
            Rested(s', t) && |s'.log| >= |s.log| && (r.state != Pending ==> s'.log == s.log) &&
            s'.record == if pass.outcome == Threw then s.record
                         else Some(AfterOutcome(r, pass.pending, pass.outcome, maximum, s.lives))
  {
    ExchangeReachesAnswer(s, t, pass.pending, r, ex, pass.outcome);
    hide ExchangePart, MayAnswer, Fair, SentBefore, Next;
    ReturnSaves(ExchangePart(s, t, ex), t, pass, r, maximum);
  }

  lemma ReturnSaves(s: State, t: Token, pass: Pass, r: Record, maximum: int)
    requires t in s.runs && s.runs[t].InCall? && s.runs[t] == InCall(pass.pending, r, r.state != Pending, s.runs[t].seen)
    requires s.owner == Some(t) && MayAnswer(r.state != Pending, s.runs[t].seen, pass.outcome)
    ensures var s' := Next(Next(Next(s, Return(t, pass.outcome)), Recheck(t)), Finish(t, maximum));
            Rested(s', t) && |s'.log| >= |s.log| && (r.state != Pending ==> s'.log == s.log) &&
            s'.record == if pass.outcome == Threw then s.record
                         else Some(AfterOutcome(r, pass.pending, pass.outcome, maximum, s.lives))
  {
    hide PassNext, OutsideNext;
    hide Outdated, AfterOutcome, MayAnswer;
    var recovery := r.state != Pending;
    var s1 := Next(s, Return(t, pass.outcome));
    if pass.outcome != Threw {
      assert s1 == Move(s, t, Answered(pass.pending, r, recovery, pass.outcome));
      var s2 := Next(s1, Recheck(t));
      assert s2 == Move(s, t, Confirmed(pass.pending, r, recovery, pass.outcome));
    }
  }

  lemma CallPartIsSubmit(s: State, t: Token, pass: Pass, ex: Exchange, r: Record, maximum: int)
    requires t in s.runs && s.runs[t] == Ready(pass.pending, r) && s.record == Some(r) && s.owner == Some(t)
    requires Fair(r.state != Pending, ex, pass.outcome) && (ex.remembered ==> SentBefore(s, t, r.op))
    ensures var s' := CallPart(s, t, pass, ex, maximum);
            var p := Submit(r, pass, maximum, s.lives);
            Rested(s', t) && s'.record == p.record && (p.submitted.Some? <==> |s'.log| > |s.log|)
  {
    hide Outdated, AfterOutcome, AnswerPart, Fair;
    var s1 := Next(s, Decide(t, pass.deferred));
    var s2 := Next(s1, BeginCall(t));
    if r.state != Exhausted && !pass.deferred {
      var recovery := r.state != Pending;
      assert s2.runs == s.runs[t := InCall(pass.pending, r, recovery, NotYet)] && s2.owner == Some(t) && s2.lives == s.lives;
      assert s2.record == Some(if recovery then r else r.(state := Submitting));
      assert |s2.log| == |s.log| + if recovery then 0 else 2;
      LogKeepsSent(s, s2, t, r.op);
      AnswerPartSaves(s2, t, pass, ex, r, maximum);
    } else {
      assert s1 == Move(s, t, Resting);
      RestingAnswerPart(s1, t, pass, ex, maximum);
      assert s2 == s1;
    }
  }

  lemma LogKeepsSent(s: State, s': State, t: Token, op: Op)
    requires |s.log| <= |s'.log| && s'.log[..|s.log|] == s.log
    ensures SentBefore(s, t, op) ==> SentBefore(s', t, op)
  {
    if i :| 0 <= i < |s.log| && s.log[i].kind == Sends && s.log[i].token == t && s.log[i].op == op {
      assert s'.log[i] == s.log[i];
    }
  }

  lemma RestingAnswerPart(s: State, t: Token, pass: Pass, ex: Exchange, maximum: int)
    requires Rested(s, t)
    ensures AnswerPart(s, t, pass, ex, maximum) == s
  {
    hide Outdated, AfterOutcome, MayAnswer, SentBefore;
    assert ExchangePart(s, t, ex) == s;
  }

  lemma RestingCallPart(s: State, t: Token, pass: Pass, ex: Exchange, maximum: int)
    requires Rested(s, t)
    ensures CallPart(s, t, pass, ex, maximum) == s
  {
    hide Outdated, AfterOutcome, AnswerPart;
    RestingAnswerPart(s, t, pass, ex, maximum);
  }

  /** The record the pass is going to call with, if it calls. */
  function Taken(record: Option<Record>, pass: Pass, life: nat): Record {
    if record.Some? && !Outdated(record.value, pass.pending) then record.value else CreateRecord(life, pass.pending, 1)
  }

  /**
   * The single steps of a pass that nobody disturbs, the adapter's look at the
   * history and its send among them, add up to Reconcile, for every exchange
   * within the adapters' contract: the same record is left, and a call is
   * marked exactly when Reconcile submits.
   */
  lemma LonePassIsReconcile(s: State, t: Token, pass: Pass, ex: Exchange, maximum: int)
    requires Rested(s, t)
    requires var r := Taken(s.record, pass, s.lives);
             Fair(r.state != Pending, ex, pass.outcome) && (ex.remembered ==> SentBefore(s, t, r.op))
    ensures var s' := CallPart(GatePart(s, t, pass), t, pass, ex, maximum);
            var p := Reconcile(s.record, pass, maximum, s.lives);
            Rested(s', t) && s'.record == p.record && (p.submitted.Some? <==> |s'.log| > |s.log|)
  {
    hide CallPart, GatePart, Submit, Outdated, AfterOutcome, Fair;
    var s1 := GatePart(s, t, pass);
    GatePartIsReconcile(s, t, pass);
    if pass.pending == [] || pass.claimed {
      RestingCallPart(s1, t, pass, ex, maximum);
    } else {
      assert s1.record == Some(Taken(s.record, pass, s.lives));
      LogKeepsSent(s, s1, t, s1.record.value.op);
      CallPartIsSubmit(s1, t, pass, ex, s1.record.value, maximum);
    }
  }

  /** Every answer of the three adapters is such an exchange. */
  lemma AdapterExchangesAreFair(recoverOnly: bool, closed: bool, identity: Option<bool>, historyRead: bool, shown: bool,
                                status: Option<HostStatus>, sendSucceeds: bool,
                                readSucceeds: bool, turns: Option<seq<Turn>>, seen: bool, aborted: bool, start: TurnStart,
                                usable: bool, entries: seq<Activation.Entry>, memory: Memory)
    ensures var a := OpenCodeActivate(closed, identity, historyRead, shown, recoverOnly, status, sendSucceeds);
            Fair(recoverOnly, Exchange(if historyRead then Some(shown) else None, false, a.delivery), a.outcome)
    ensures var a := CodexActivate(readSucceeds, turns, seen, recoverOnly, aborted, start);
            var found := turns.Some? && exists i :: 0 <= i < |turns.value| && turns.value[i].matches && turns.value[i].hasId;
            Fair(recoverOnly, Exchange(if readSucceeds && turns.Some? then Some(found) else None, false, a.delivery), a.outcome)
    ensures var a := PiActivate(usable, entries, memory, recoverOnly, sendSucceeds);
            var found := CompletedTurn in entries || exists i :: 0 <= i < |entries| && entries[i].Activation?;
            Fair(recoverOnly, Exchange(if usable then Some(found) else None, usable && !found && memory == RememberedQueued, a.delivery), a.outcome)
  {
    OpenCodeKeepsContract(closed, identity, historyRead, shown, recoverOnly, status, sendSucceeds);
    CodexKeepsContract(readSucceeds, turns, seen, recoverOnly, aborted, start);
    if turns.Some? { ShownTurnIsFirstMatch(turns.value); }
    PiKeepsContract(usable, entries, memory, recoverOnly, sendSucceeds);
    FirstActivationIsShown(entries);
  }
}
