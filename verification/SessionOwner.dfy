/**
 * One backend per host session (src/registered-shell/opencode-sessions.ts).
 * JavaScript runs one turn at a time; each turn below is what happens between
 * two awaits. The factory and the backends answer whenever, and however, they like.
 */
module SessionOwner {
  import opened Options

  datatype Identity = Identity(session: string, directory: string)

  /** Requested: the factory runs in a later turn. Late: closed because its creation was cancelled. */
  datatype Phase =
    | Requested | Building | LateClosing | Ready | Closing
    | Closed(late: bool, ok: bool)
    | Failed

  /** One creation, its backend, and how often that backend has been told to close. */
  datatype Entry = Entry(identity: Identity, cancelled: bool, phase: Phase, closes: nat)

  /** A call of close(session): waiting for the creation, then for the handle's close. */
  datatype Stage = Waiting | Asked | Returned
  datatype Call = Call(entry: nat, stage: Stage)

  datatype State = State(
    entries: seq<Entry>,
    table: map<string, nat>,
    calls: seq<Call>,
    disposed: bool,
    first: nat,
    last: nat)

  const Start := State([], map[], [], false, 0, 0)

  /** The disposal waits for the calls from first up to last. */
  predicate OfDisposal(s: State, k: nat) {
    s.first <= k < s.last
  }

  datatype Got = Invalid | OwnerDisposed | OtherDirectory | Joined(entry: nat) | Created(entry: nat)

  function MaxSessionIdLength(): nat { 200 }

  predicate Blank(s: string) {
    forall i :: 0 <= i < |s| ==> s[i] in " \t\n\r"
  }

  predicate ValidIdentity(id: Identity) {
    && !Blank(id.session) && |id.session| <= MaxSessionIdLength()
    && !Blank(id.directory) && id.directory[0] == '/'
  }

  // ------------------------------------------------------------------- turns

  function CreateTurn(s: State, id: Identity): (State, Got) {
    if !ValidIdentity(id) then (s, Invalid)
    else if s.disposed then (s, OwnerDisposed)
    else match Lookup(s.table, id.session)
      case Some(e) =>
        (s, if e < |s.entries| && s.entries[e].identity.directory != id.directory then OtherDirectory else Joined(e))
      case None =>
        (s.(entries := s.entries + [Entry(id, false, Requested, 0)], table := s.table[id.session := |s.entries|]),
         Created(|s.entries|))
  }

  /** Drop the session's table entry, if it is still this one. */
  function Forget(s: State, e: nat): State
    requires e < |s.entries|
  {
    var session := s.entries[e].identity.session;
    if Lookup(s.table, session) == Some(e) then s.(table := s.table - {session}) else s
  }

  function SetPhase(s: State, e: nat, phase: Phase): State
    requires e < |s.entries|
  {
    s.(entries := s.entries[e := s.entries[e].(phase := phase)])
  }

  /** backend.close() is called. */
  function BeginClose(s: State, e: nat, phase: Phase): State
    requires e < |s.entries|
  {
    s.(entries := s.entries[e := s.entries[e].(phase := phase, closes := s.entries[e].closes + 1)])
  }

  function CallFactory(s: State, e: nat): State {
    if e < |s.entries| && s.entries[e].phase == Requested then SetPhase(s, e, Building) else s
  }

  /** The factory settles; a cancelled creation closes what it got. */
  function FactorySettles(s: State, e: nat, ok: bool): State {
    if !(e < |s.entries| && s.entries[e].phase == Building) then s
    else if !ok then Forget(SetPhase(s, e, Failed), e)
    else if s.entries[e].cancelled then BeginClose(s, e, LateClosing)
    else SetPhase(s, e, Ready)
  }

  function CloseSettles(s: State, e: nat, ok: bool): State {
    if e < |s.entries| && s.entries[e].phase == LateClosing then Forget(SetPhase(s, e, Closed(true, ok)), e)
    else if e < |s.entries| && s.entries[e].phase == Closing then Forget(SetPhase(s, e, Closed(false, ok)), e)
    else s
  }

  /** handle.close(): the first call closes, later ones share its result. */
  function HandleClose(s: State, e: nat): State {
    if e < |s.entries| && s.entries[e].phase == Ready then BeginClose(s, e, Closing) else s
  }

  function CloseEntry(s: State, e: nat): State
    requires e < |s.entries|
  {
    s.(entries := s.entries[e := s.entries[e].(cancelled := true)], calls := s.calls + [Call(e, Waiting)])
  }

  /** close(session, directory) up to its first await; None when it returns false. */
  function CloseTurn(s: State, session: string, directory: Option<string>): (State, Option<nat>) {
    match Lookup(s.table, session)
    case None => (s, None)
    case Some(e) =>
      if e >= |s.entries| || (directory.Some? && s.entries[e].identity.directory != directory.value) then (s, None)
      else (CloseEntry(s, e), Some(|s.calls|))
  }

  predicate Settled(phase: Phase) {
    phase.Closed? || phase.Failed?
  }

  /** The creation has settled: ask the handle to close, or finish if there is none. */
  function CloseContinues(s: State, k: nat): State {
    if !(k < |s.calls| && s.calls[k].stage == Waiting && s.calls[k].entry < |s.entries|) then s else
    var e := s.calls[k].entry;
    var phase := s.entries[e].phase;
    if phase == Ready || phase == Closing || (phase.Closed? && !phase.late)
    then HandleClose(s.(calls := s.calls[k := Call(e, Asked)]), e)
    else if Settled(phase) then Forget(s.(calls := s.calls[k := Call(e, Returned)]), e)
    else s
  }

  function CloseReturns(s: State, k: nat): State {
    if k < |s.calls| && s.calls[k].stage == Asked && s.calls[k].entry < |s.entries| &&
       s.entries[s.calls[k].entry].phase.Closed?
    then Forget(s.(calls := s.calls[k := Call(s.calls[k].entry, Returned)]), s.calls[k].entry)
    else s
  }

  /** Close every session in the table, oldest first. */
  function CloseAll(s: State, e: nat): State
    decreases |s.entries| - e
  {
    if e >= |s.entries| then s
    else if Lookup(s.table, s.entries[e].identity.session) == Some(e) then CloseAll(CloseEntry(s, e), e + 1)
    else CloseAll(s, e + 1)
  }

  function DisposeTurn(s: State): State {
    if s.disposed then s else
    var after := CloseAll(s.(disposed := true), 0);
    after.(first := |s.calls|, last := |after.calls|)
  }

  /** What close(session) returns or throws: only a clean or a merely cancelled creation returns. */
  predicate CloseSucceeds(phase: Phase) {
    phase.Closed? && phase.ok
  }

  datatype Step =
    | GetStep(id: Identity)
    | FactoryStep(entry: nat)
    | SettleStep(entry: nat, ok: bool)
    | ClosedStep(entry: nat, ok: bool)
    | HandleStep(entry: nat)
    | CloseStep(session: string, directory: Option<string>)
    | ContinueStep(call: nat)
    | ReturnStep(call: nat)
    | DisposeStep

  function Next(s: State, step: Step): State {
    match step
    case GetStep(id) => CreateTurn(s, id).0
    case FactoryStep(e) => CallFactory(s, e)
    case SettleStep(e, ok) => FactorySettles(s, e, ok)
    case ClosedStep(e, ok) => CloseSettles(s, e, ok)
    case HandleStep(e) => HandleClose(s, e)
    case CloseStep(session, directory) => CloseTurn(s, session, directory).0
    case ContinueStep(k) => CloseContinues(s, k)
    case ReturnStep(k) => CloseReturns(s, k)
    case DisposeStep => DisposeTurn(s)
  }

  function Run(s: State, steps: seq<Step>): State
    decreases |steps|
  {
    if steps == [] then s else Run(Next(s, steps[0]), steps[1..])
  }

  // --------------------------------------------------------------- invariant

  /** Being created, open, or being closed. */
  predicate Live(e: Entry) {
    !Settled(e.phase)
  }

  /** The table holds exactly the live entries, each under its session. */
  ghost predicate TableIsLive(s: State) {
    && (forall t :: t in s.table ==> s.table[t] < |s.entries| && s.entries[s.table[t]].identity.session == t
                                     && Live(s.entries[s.table[t]]))
    && (forall e :: 0 <= e < |s.entries| && Live(s.entries[e]) ==> Lookup(s.table, s.entries[e].identity.session) == Some(e))
  }

  /** A backend is told to close when, and only when, its entry leaves service. */
  predicate ClosesOk(e: Entry) {
    e.closes == if e.phase == LateClosing || e.phase == Closing || e.phase.Closed? then 1 else 0
  }

  ghost predicate CallOk(s: State, c: Call) {
    && c.entry < |s.entries|
    && s.entries[c.entry].cancelled
    && (c.stage == Asked ==> s.entries[c.entry].phase == Closing ||
                             (s.entries[c.entry].phase.Closed? && !s.entries[c.entry].phase.late))
    && (c.stage == Returned ==> Settled(s.entries[c.entry].phase))
  }

  /** Once disposed, every live entry is waited for by the disposal. */
  ghost predicate DisposalCovers(s: State) {
    && s.last <= |s.calls|
    && (s.disposed ==> forall e :: 0 <= e < |s.entries| && Live(s.entries[e]) ==>
                         exists k: nat :: OfDisposal(s, k) && s.calls[k].entry == e)
  }

  ghost predicate Core(s: State) {
    && TableIsLive(s)
    && (forall e :: 0 <= e < |s.entries| ==> ClosesOk(s.entries[e]))
    && (forall k :: 0 <= k < |s.calls| ==> CallOk(s, s.calls[k]))
  }

  ghost predicate Inv(s: State) {
    Core(s) && DisposalCovers(s)
  }

  lemma GetKeepsInv(s: State, id: Identity)
    requires Inv(s)
    ensures Inv(CreateTurn(s, id).0)
  {
    var s' := CreateTurn(s, id).0;
    forall k | 0 <= k < |s'.calls| ensures CallOk(s', s'.calls[k]) { assert CallOk(s, s.calls[k]); }
    forall e | 0 <= e < |s.entries| ensures s'.entries[e] == s.entries[e] {}
  }

  /** One entry moves on without leaving service. */
  lemma EntryMoves(s: State, e: nat, entry: Entry)
    requires Inv(s) && e < |s.entries| && Live(s.entries[e]) && Live(entry) && ClosesOk(entry)
    requires entry.identity == s.entries[e].identity && entry.cancelled == s.entries[e].cancelled
    requires s.entries[e].phase == Closing ==> entry.phase == Closing
    ensures Inv(s.(entries := s.entries[e := entry]))
  {
    var s' := s.(entries := s.entries[e := entry]);
    forall k | 0 <= k < |s'.calls| ensures CallOk(s', s'.calls[k]) { assert CallOk(s, s.calls[k]); }
  }

  /** One entry leaves service, and the table with it. */
  lemma EntryLeaves(s: State, e: nat, phase: Phase)
    requires Inv(s) && e < |s.entries| && Live(s.entries[e]) && Settled(phase)
    requires ClosesOk(s.entries[e].(phase := phase)) && (s.entries[e].phase == Closing ==> phase.Closed? && !phase.late)
    ensures Inv(Forget(SetPhase(s, e, phase), e))
  {
    var s' := Forget(SetPhase(s, e, phase), e);
    forall k | 0 <= k < |s'.calls| ensures CallOk(s', s'.calls[k]) { assert CallOk(s, s.calls[k]); }
    forall d | 0 <= d < |s'.entries| && Live(s'.entries[d])
      ensures Lookup(s'.table, s'.entries[d].identity.session) == Some(d)
    {
      assert Lookup(s.table, s.entries[d].identity.session) == Some(d);
    }
  }

  /** A settled entry has already left the table. */
  lemma ForgetSettled(s: State, e: nat)
    requires TableIsLive(s) && e < |s.entries| && Settled(s.entries[e].phase)
    ensures Forget(s, e) == s
  {
  }

  /** One call moves on. */
  lemma CallMoves(s: State, k: nat, stage: Stage)
    requires Inv(s) && k < |s.calls| && CallOk(s, s.calls[k].(stage := stage))
    ensures Inv(s.(calls := s.calls[k := s.calls[k].(stage := stage)]))
  {
    var s' := s.(calls := s.calls[k := s.calls[k].(stage := stage)]);
    forall j | 0 <= j < |s'.calls| ensures CallOk(s', s'.calls[j]) { assert CallOk(s, s.calls[j]); }
    if s.disposed {
      forall e | 0 <= e < |s'.entries| && Live(s'.entries[e])
        ensures exists j: nat :: OfDisposal(s', j) && s'.calls[j].entry == e
      {
        var j: nat :| OfDisposal(s, j) && s.calls[j].entry == e;
        assert OfDisposal(s', j) && s'.calls[j].entry == e;
      }
    }
  }

  lemma HandleKeepsInv(s: State, e: nat)
    requires Inv(s)
    ensures Inv(HandleClose(s, e))
  {
    if e < |s.entries| && s.entries[e].phase == Ready {
      assert ClosesOk(s.entries[e]);
      EntryMoves(s, e, HandleClose(s, e).entries[e]);
    }
  }

  lemma CloseEntryKeepsCore(s: State, e: nat)
    requires Core(s) && e < |s.entries|
    ensures Core(CloseEntry(s, e))
  {
    var s' := CloseEntry(s, e);
    forall k | 0 <= k < |s'.calls| ensures CallOk(s', s'.calls[k]) {
      if k < |s.calls| { assert CallOk(s, s.calls[k]); }
    }
    forall d | 0 <= d < |s'.entries| ensures ClosesOk(s'.entries[d]) { assert ClosesOk(s.entries[d]); }
  }

  lemma CloseKeepsInv(s: State, session: string, directory: Option<string>)
    requires Inv(s)
    ensures Inv(CloseTurn(s, session, directory).0)
  {
    var s' := CloseTurn(s, session, directory).0;
    if s' != s {
      var e := s.table[session];
      CloseEntryKeepsCore(s, e);
      if s.disposed {
        forall d | 0 <= d < |s'.entries| && Live(s'.entries[d])
          ensures exists j: nat :: OfDisposal(s', j) && s'.calls[j].entry == d
        {
          assert Live(s.entries[d]);
          var j: nat :| OfDisposal(s, j) && s.calls[j].entry == d;
          assert OfDisposal(s', j) && s'.calls[j].entry == d;
        }
      }
    }
  }

  /** The call by which CloseAll waits for entry e. */
  ghost predicate CalledFor(s: State, e: nat, first: nat) {
    exists k :: first <= k < |s.calls| && s.calls[k].entry == e
  }

  /** What CloseAll leaves alone: phases, the table, the calls already made. */
  ghost predicate OnlyCancels(s: State, s': State) {
    && s'.disposed == s.disposed && s'.first == s.first && s'.last == s.last && s'.table == s.table
    && |s'.entries| == |s.entries| && |s'.calls| >= |s.calls|
    && (forall k :: 0 <= k < |s.calls| ==> s'.calls[k] == s.calls[k])
    && (forall d :: 0 <= d < |s.entries| ==> s'.entries[d] == s.entries[d].(cancelled := s'.entries[d].cancelled))
  }

  lemma {:induction false} CloseAllOnlyCancels(s: State, e: nat)
    requires Core(s)
    ensures Core(CloseAll(s, e)) && OnlyCancels(s, CloseAll(s, e))
    decreases |s.entries| - e
  {
    if e < |s.entries| {
      if Lookup(s.table, s.entries[e].identity.session) == Some(e) {
        CloseEntryKeepsCore(s, e);
        hide Core;
        CloseAllOnlyCancels(CloseEntry(s, e), e + 1);
      } else {
        CloseAllOnlyCancels(s, e + 1);
      }
    }
  }

  lemma {:induction false} CloseAllCovers(s: State, e: nat, d: nat)
    requires Core(s) && e <= d < |s.entries| && Live(s.entries[d])
    ensures CalledFor(CloseAll(s, e), d, |s.calls|)
    decreases |s.entries| - e
  {
    if Lookup(s.table, s.entries[e].identity.session) == Some(e) {
      var s1 := CloseEntry(s, e);
      CloseEntryKeepsCore(s, e);
      CloseAllOnlyCancels(s1, e + 1);
      if d == e {
        assert s1.calls[|s.calls|].entry == e;
      } else {
        CloseAllCovers(s1, e + 1, d);
      }
    } else {
      assert d != e;
      CloseAllCovers(s, e + 1, d);
    }
  }

  lemma DisposeKeepsInv(s: State)
    requires Inv(s)
    ensures Inv(DisposeTurn(s))
  {
    if !s.disposed {
      var s1 := s.(disposed := true);
      assert Core(s1) by {
        forall k | 0 <= k < |s1.calls| ensures CallOk(s1, s1.calls[k]) { assert CallOk(s, s.calls[k]); }
      }
      CloseAllOnlyCancels(s1, 0);
      var s2 := CloseAll(s1, 0);
      var s' := DisposeTurn(s);
      assert Core(s') by {
        forall k | 0 <= k < |s'.calls| ensures CallOk(s', s'.calls[k]) { assert CallOk(s2, s2.calls[k]); }
      }
      forall d | 0 <= d < |s'.entries| && Live(s'.entries[d])
        ensures exists k: nat :: OfDisposal(s', k) && s'.calls[k].entry == d
      {
        assert Live(s1.entries[d]);
        CloseAllCovers(s1, 0, d);
        var k :| |s.calls| <= k < |s2.calls| && s2.calls[k].entry == d;
        assert OfDisposal(s', k);
      }
    }
  }

  lemma ContinueKeepsInv(s: State, k: nat)
    requires Inv(s)
    ensures Inv(CloseContinues(s, k))
  {
    if k < |s.calls| && s.calls[k].stage == Waiting {
      assert CallOk(s, s.calls[k]);
      var e := s.calls[k].entry;
      var phase := s.entries[e].phase;
      if phase == Ready {
        var s1 := HandleClose(s, e);
        HandleKeepsInv(s, e);
        CallMoves(s1, k, Asked);
        assert CloseContinues(s, k) == s1.(calls := s1.calls[k := s1.calls[k].(stage := Asked)]);
      } else if phase == Closing || (phase.Closed? && !phase.late) {
        CallMoves(s, k, Asked);
      } else if Settled(phase) {
        CallMoves(s, k, Returned);
        ForgetSettled(s.(calls := s.calls[k := s.calls[k].(stage := Returned)]), e);
      }
    }
  }

  lemma ReturnKeepsInv(s: State, k: nat)
    requires Inv(s)
    ensures Inv(CloseReturns(s, k))
  {
    if CloseReturns(s, k) != s {
      assert CallOk(s, s.calls[k]);
      CallMoves(s, k, Returned);
      ForgetSettled(s.(calls := s.calls[k := s.calls[k].(stage := Returned)]), s.calls[k].entry);
    }
  }

  lemma StepKeepsInv(s: State, step: Step)
    requires Inv(s)
    ensures Inv(Next(s, step))
  {
    match step
    case GetStep(id) => GetKeepsInv(s, id);
    case FactoryStep(e) =>
      if e < |s.entries| && s.entries[e].phase == Requested {
        assert ClosesOk(s.entries[e]);
        EntryMoves(s, e, CallFactory(s, e).entries[e]);
      }
    case SettleStep(e, ok) =>
      if e < |s.entries| && s.entries[e].phase == Building {
        assert ClosesOk(s.entries[e]);
        if ok { EntryMoves(s, e, FactorySettles(s, e, ok).entries[e]); } else { EntryLeaves(s, e, Failed); }
      }
    case ClosedStep(e, ok) =>
      if e < |s.entries| && (s.entries[e].phase == LateClosing || s.entries[e].phase == Closing) {
        assert ClosesOk(s.entries[e]);
        EntryLeaves(s, e, Closed(s.entries[e].phase == LateClosing, ok));
      }
    case HandleStep(e) => HandleKeepsInv(s, e);
    case CloseStep(session, directory) => CloseKeepsInv(s, session, directory);
    case ContinueStep(k) => ContinueKeepsInv(s, k);
    case ReturnStep(k) => ReturnKeepsInv(s, k);
    case DisposeStep => DisposeKeepsInv(s);
  }

  lemma {:induction false} RunKeepsInv(s: State, steps: seq<Step>)
    requires Inv(s)
    ensures Inv(Run(s, steps))
    decreases |steps|
  {
    hide Inv, Next;
    if steps != [] {
      StepKeepsInv(s, steps[0]);
      RunKeepsInv(Next(s, steps[0]), steps[1..]);
    }
  }

  // ---------------------------------------------------------- main results

  /** Single flight: the entries in service are exactly those in the table, one per session. */
  lemma OneLiveBackendPerSession(steps: seq<Step>)
    ensures var s := Run(Start, steps);
            && (forall e :: 0 <= e < |s.entries| ==>
                  (Live(s.entries[e]) <==> Lookup(s.table, s.entries[e].identity.session) == Some(e)))
            && (forall d, e :: 0 <= d < e < |s.entries| && Live(s.entries[d]) && Live(s.entries[e]) ==>
                  s.entries[d].identity.session != s.entries[e].identity.session)
  {
    RunKeepsInv(Start, steps);
  }

  /** The session's entry in service. */
  ghost predicate Serves(s: State, e: nat, session: string) {
    e < |s.entries| && Live(s.entries[e]) && s.entries[e].identity.session == session
  }

  /**
   * In every run an owner that is not disposed answers a valid identity by the
   * entry in service for its session: it joins that one exactly if it was made
   * for the same directory, refuses exactly if for another, and creates one
   * exactly if there is none; only a creation changes anything.
   */
  lemma GetAnswersByEntryInService(steps: seq<Step>, id: Identity)
    requires ValidIdentity(id) && !Run(Start, steps).disposed
    ensures var s := Run(Start, steps);
            var (s', got) := CreateTurn(s, id);
            && (forall e: nat :: got == Joined(e) <==> Serves(s, e, id.session) && s.entries[e].identity == id)
            && (got == OtherDirectory <==> exists e: nat :: Serves(s, e, id.session) && s.entries[e].identity.directory != id.directory)
            && (got.Created? <==> forall e: nat :: !Serves(s, e, id.session))
            && (got.Created? ==> got == Created(|s.entries|) && s'.entries == s.entries + [Entry(id, false, Requested, 0)] &&
                                 Serves(s', |s.entries|, id.session) && s'.calls == s.calls && s'.disposed == s.disposed)
            && (!got.Created? ==> s' == s)
  {
    RunKeepsInv(Start, steps);
    hide Run, ValidIdentity;
    var s := Run(Start, steps);
    if id.session in s.table { assert Serves(s, s.table[id.session], id.session); }
  }

  /** Nobody gets an entry for an identity that is not one, or from a disposed owner. */
  lemma GetRefuses(s: State, id: Identity)
    ensures CreateTurn(s, id).1 == Invalid <==>
              Blank(id.session) || |id.session| > 200 || Blank(id.directory) || id.directory[0] != '/'
    ensures CreateTurn(s, id).1 == OwnerDisposed <==> ValidIdentity(id) && s.disposed
    ensures CreateTurn(s, id).1 in {Invalid, OwnerDisposed} ==> CreateTurn(s, id).0 == s
  {
    hide Blank;
  }

  /** An entry keeps the identity it was made for, and once out of service stays out. */
  lemma {:induction false} EntryStays(s: State, steps: seq<Step>, e: nat)
    requires Inv(s) && e < |s.entries|
    ensures e < |Run(s, steps).entries| && Run(s, steps).entries[e].identity == s.entries[e].identity
    ensures Live(Run(s, steps).entries[e]) ==> Live(s.entries[e])
    decreases |steps|
  {
    if steps != [] {
      StepKeepsEntry(s, steps[0], e);
      StepKeepsInv(s, steps[0]);
      hide Inv, Next, Live;
      EntryStays(Next(s, steps[0]), steps[1..], e);
    }
  }

  lemma StepKeepsEntry(s: State, step: Step, e: nat)
    requires Inv(s) && e < |s.entries|
    ensures var s' := Next(s, step);
            e < |s'.entries| && s'.entries[e].identity == s.entries[e].identity && (Live(s'.entries[e]) ==> Live(s.entries[e]))
  {
    if step.DisposeStep? && !s.disposed {
      DisposeStarts(s);
    } else {
      hide CloseAll, ValidIdentity;
      if step.ContinueStep? && step.call < |s.calls| { assert CallOk(s, s.calls[step.call]); }
    }
  }

  lemma DisposeStarts(s: State)
    requires Inv(s)
    ensures Core(s.(disposed := true)) && OnlyCancels(s.(disposed := true), CloseAll(s.(disposed := true), 0))
  {
    var s1 := s.(disposed := true);
    forall k | 0 <= k < |s1.calls| ensures CallOk(s1, s1.calls[k]) { assert CallOk(s, s.calls[k]); }
    CloseAllOnlyCancels(s1, 0);
  }

  function EntryOf(got: Got): Option<nat> {
    match got
    case Joined(e) => Some(e)
    case Created(e) => Some(e)
    case _ => None
  }

  /**
   * Over every run: the entry a caller is given is for its own identity, then
   * and for ever; and while it is in service, nobody who asks for that
   * identity is given another one, and nobody who asks for the session under
   * another directory is given any.
   */
  lemma CallersShareTheirBackend(before: seq<Step>, between: seq<Step>, id: Identity, other: Identity)
    requires EntryOf(CreateTurn(Run(Start, before), id).1).Some?
    requires ValidIdentity(other) && other.session == id.session
    ensures var s := Run(Start, before);
            var e, t := EntryOf(CreateTurn(s, id).1).value, Run(CreateTurn(s, id).0, between);
            && e < |t.entries| && t.entries[e].identity == id
            && (!t.disposed && Live(t.entries[e]) ==> CreateTurn(t, other).1 == if other == id then Joined(e) else OtherDirectory)
  {
    var s := Run(Start, before);
    var s' := CreateTurn(s, id).0;
    RunKeepsInv(Start, before);
    GetKeepsInv(s, id);
    assert ValidIdentity(id) && !s.disposed;
    hide Run, ValidIdentity;
    GetAnswersByEntryInService(before, id);
    var e := EntryOf(CreateTurn(s, id).1).value;
    assert e < |s'.entries| && s'.entries[e].identity == id;
    RunKeepsInv(s', between);
    EntryStays(s', between, e);
  }

  /** The phase that a step takes an entry to. */
  predicate MovesTo(s: State, step: Step, e: nat, was: Entry, now: Phase) {
    && (was.phase == Requested ==> now == if step == FactoryStep(e) then Building else Requested)
    && (was.phase == Building ==>
          now == if step == SettleStep(e, false) then Failed
                 else if step != SettleStep(e, true) then Building
                 else if was.cancelled then LateClosing else Ready)
    && (was.phase == LateClosing || was.phase == Closing ==>
          now == if step.ClosedStep? && step.entry == e then Closed(was.phase == LateClosing, step.ok) else was.phase)
    && (was.phase == Ready ==>
          now == if step == HandleStep(e) ||
                    (step.ContinueStep? && step.call < |s.calls| && s.calls[step.call] == Call(e, Waiting))
                 then Closing else Ready)
    && (Settled(was.phase) ==> now == was.phase)
  }

  /**
   * How an entry moves: a creation is opened exactly if the factory delivers
   * and nobody has cancelled it meanwhile, is closed again at once if somebody
   * has, and fails with the factory; an open backend is closed by whoever asks
   * its handle first, and is done when that settles.
   */
  lemma EntryMovesBy(s: State, step: Step, e: nat)
    requires Inv(s) && e < |s.entries|
    ensures e < |Next(s, step).entries| && MovesTo(s, step, e, s.entries[e], Next(s, step).entries[e].phase)
  {
    if step.DisposeStep? || step.CloseStep? || step.GetStep? {
      AskedEntryStays(s, step, e);
    } else if step.ContinueStep? || step.ReturnStep? {
      CallMovesEntry(s, step, e);
    } else {
      AnswerMovesEntry(s, step, e);
    }
    hide Next, Inv, MovesTo;
  }

  lemma AskedEntryStays(s: State, step: Step, e: nat)
    requires Inv(s) && e < |s.entries| && (step.DisposeStep? || step.CloseStep? || step.GetStep?)
    ensures e < |Next(s, step).entries| && MovesTo(s, step, e, s.entries[e], Next(s, step).entries[e].phase)
  {
    if step.DisposeStep? && !s.disposed { DisposeStarts(s); }
    if step.CloseStep? { TableEntriesExist(s, step.session); }
    hide Inv, CloseAll, ValidIdentity;
  }

  lemma CallMovesEntry(s: State, step: Step, e: nat)
    requires Inv(s) && e < |s.entries| && (step.ContinueStep? || step.ReturnStep?)
    ensures e < |Next(s, step).entries| && MovesTo(s, step, e, s.entries[e], Next(s, step).entries[e].phase)
  {
    if step.call < |s.calls| { assert CallOk(s, s.calls[step.call]); }
    hide Inv;
  }

  lemma AnswerMovesEntry(s: State, step: Step, e: nat)
    requires e < |s.entries| && (step.FactoryStep? || step.SettleStep? || step.ClosedStep? || step.HandleStep?)
    ensures e < |Next(s, step).entries| && MovesTo(s, step, e, s.entries[e], Next(s, step).entries[e].phase)
  {
  }

  /** The stage that a step takes a call of close to. */
  predicate StageAfter(step: Step, k: nat, was: Call, phase: Phase, now: Stage) {
    && (was.stage == Returned ==> now == Returned)
    && (was.stage == Asked ==> now == if step == ReturnStep(k) && phase.Closed? then Returned else Asked)
    && (was.stage == Waiting ==>
          now == if step != ContinueStep(k) then Waiting
                 else if phase == Ready || phase == Closing || (phase.Closed? && !phase.late) then Asked
                 else if Settled(phase) then Returned else Waiting)
  }

  /**
   * How a call of close moves, in its own turns only: once the creation has
   * settled it asks the handle, if there is one, and otherwise returns; once
   * it has asked, it returns when the backend is closed.
   */
  lemma CallMovesBy(s: State, step: Step, k: nat)
    requires Inv(s) && k < |s.calls| && s.calls[k].entry < |s.entries|
    ensures k < |Next(s, step).calls| && Next(s, step).calls[k].entry == s.calls[k].entry
    ensures StageAfter(step, k, s.calls[k], s.entries[s.calls[k].entry].phase, Next(s, step).calls[k].stage)
  {
    assert CallOk(s, s.calls[k]);
    if step.DisposeStep? {
      if !s.disposed { DisposeStarts(s); }
      hide Inv, CloseAll;
    } else if step.ContinueStep? || step.ReturnStep? {
      hide Inv;
    } else {
      if step.CloseStep? { TableEntriesExist(s, step.session); }
      hide Inv, CloseAll, ValidIdentity, CloseContinues, CloseReturns;
    }
  }

  /** A close finds something to do exactly if the session is in service, for that directory if one is given; it cancels that entry and waits for it. */
  lemma CloseAnswers(steps: seq<Step>, session: string, directory: Option<string>)
    ensures var s := Run(Start, steps);
            var (s', call) := CloseTurn(s, session, directory);
            && (call.Some? <==> exists e: nat :: Serves(s, e, session) && (directory.Some? ==> s.entries[e].identity.directory == directory.value))
            && (call == None ==> s' == s)
            && (call.Some? ==>
                  && call.value == |s.calls| && |s'.calls| == |s.calls| + 1
                  && var e := s'.calls[|s.calls|].entry;
                     && Serves(s, e, session) && s'.calls == s.calls + [Call(e, Waiting)]
                     && s' == s.(calls := s'.calls, entries := s.entries[e := s.entries[e].(cancelled := true)]))
  {
    RunKeepsInv(Start, steps);
    hide Run;
    var s := Run(Start, steps);
    if session in s.table { assert Serves(s, s.table[session], session); }
  }

  /** An entry once the disposal has reached it. */
  function Called(e: Entry): Entry {
    if Live(e) then e.(cancelled := true) else e
  }

  /** The calls from first on wait for entries in service from e on, oldest first. */
  ghost predicate AsksInOrder(s: State, calls: seq<Call>, first: nat, e: nat) {
    && (forall k :: first <= k < |calls| ==>
          calls[k].stage == Waiting && e <= calls[k].entry < |s.entries| && Live(s.entries[calls[k].entry]))
    && (forall k, l :: first <= k < l < |calls| ==> calls[k].entry < calls[l].entry)
  }

  /** A first disposal cancels exactly the entries in service and waits for each once, oldest first. */
  lemma DisposalAsksEveryone(s: State)
    requires Inv(s) && !s.disposed
    ensures var s' := DisposeTurn(s);
            && s'.disposed && s'.first == |s.calls| && s'.last == |s'.calls| && s'.table == s.table
            && |s'.entries| == |s.entries| && (forall e :: 0 <= e < |s.entries| ==> s'.entries[e] == Called(s.entries[e]))
            && (forall e: nat :: e < |s.entries| && Live(s.entries[e]) ==> CalledFor(s', e, |s.calls|))
            && AsksInOrder(s, s'.calls, |s.calls|, 0)
  {
    var s1 := s.(disposed := true);
    DisposeStarts(s);
    CloseAllAsks(s1, 0);
    CloseAllCancels(s1, 0);
    forall e: nat | e < |s.entries| && Live(s.entries[e]) ensures CalledFor(DisposeTurn(s), e, |s.calls|) {
      CloseAllCovers(s1, 0, e);
      var k :| |s.calls| <= k < |CloseAll(s1, 0).calls| && CloseAll(s1, 0).calls[k].entry == e;
      assert DisposeTurn(s).calls[k].entry == e;
    }
  }

  lemma {:induction false} CloseAllCancels(s: State, e: nat)
    requires Core(s)
    ensures var s' := CloseAll(s, e);
            |s'.entries| == |s.entries| &&
            forall d :: 0 <= d < |s.entries| ==> s'.entries[d] == if e <= d then Called(s.entries[d]) else s.entries[d]
    decreases |s.entries| - e
  {
    if e < |s.entries| {
      if Lookup(s.table, s.entries[e].identity.session) == Some(e) {
        CloseEntryKeepsCore(s, e);
        CloseAllCancels(CloseEntry(s, e), e + 1);
      } else {
        CloseAllCancels(s, e + 1);
      }
    }
  }

  lemma {:induction false} CloseAllAsks(s: State, e: nat)
    requires Core(s)
    ensures |CloseAll(s, e).calls| >= |s.calls| && AsksInOrder(s, CloseAll(s, e).calls, |s.calls|, e)
    decreases |s.entries| - e
  {
    if e < |s.entries| {
      if Lookup(s.table, s.entries[e].identity.session) == Some(e) {
        var s1, calls := CloseEntry(s, e), CloseAll(s, e).calls;
        CloseEntryKeepsCore(s, e);
        CloseAllAsks(s1, e + 1);
        CloseAllOnlyCancels(s1, e + 1);
        assert Live(s.entries[e]);
        assert calls[|s.calls|] == s1.calls[|s.calls|] == Call(e, Waiting);
        hide Core, OnlyCancels;
        forall k | |s.calls| < k < |calls| ensures Live(s.entries[calls[k].entry]) { assert |s1.calls| <= k; }
      } else {
        CloseAllAsks(s, e + 1);
      }
    }
  }

  /** A backend is closed at most once; exactly once when its entry is done with it. */
  lemma EveryBackendIsClosedOnce(steps: seq<Step>, e: nat)
    requires e < |Run(Start, steps).entries|
    ensures var entry := Run(Start, steps).entries[e];
            entry.closes <= 1 && (entry.phase.Closed? ==> entry.closes == 1) && (entry.phase.Failed? ==> entry.closes == 0)
  {
    RunKeepsInv(Start, steps);
    assert ClosesOk(Run(Start, steps).entries[e]);
  }

  predicate DisposalFinished(s: State) {
    s.disposed && forall k :: s.first <= k < s.last && k < |s.calls| ==> s.calls[k].stage == Returned
  }

  /** Nothing survives a finished disposal: no entry in service, an empty table, every backend closed. */
  lemma FinishedDisposalLeavesNothing(steps: seq<Step>)
    requires DisposalFinished(Run(Start, steps))
    ensures var s := Run(Start, steps);
            && s.table == map[]
            && (forall e :: 0 <= e < |s.entries| ==> s.entries[e].phase.Closed? || s.entries[e].phase.Failed?)
            && (forall e :: 0 <= e < |s.entries| && s.entries[e].phase.Closed? ==> s.entries[e].closes == 1)
  {
    RunKeepsInv(Start, steps);
    var s := Run(Start, steps);
    hide Run;
    forall k: nat | OfDisposal(s, k) ensures !Live(s.entries[s.calls[k].entry]) {
      assert CallOk(s, s.calls[k]);
    }
    forall e | 0 <= e < |s.entries| ensures !Live(s.entries[e]) && ClosesOk(s.entries[e]) {}
    forall t ensures t !in s.table {}
  }

  // Every close, and so every disposal, ends once the factory and the backends answer.

  /** How many turns a call of close may still have to wait for. */
  function Rank(c: Call, phase: Phase): nat {
    match c.stage
    case Returned => 0
    case Asked => if phase.Closed? then 1 else 2
    case Waiting =>
      match phase
      case Requested => 6
      case Building => 5
      case Ready => 4
      case LateClosing => 3
      case Closing => 3
      case Closed(_, _) => 2
      case Failed => 2
  }

  function RankAt(s: State, k: nat): nat
    requires k < |s.calls| && s.calls[k].entry < |s.entries|
  {
    Rank(s.calls[k], s.entries[s.calls[k].entry].phase)
  }

  /** The turn call k waits for: its own, the factory's or the backend's. */
  function AwaitedTurn(s: State, k: nat, ok: bool): Step
    requires k < |s.calls| && s.calls[k].entry < |s.entries|
  {
    var e := s.calls[k].entry;
    match s.entries[e].phase
    case Requested => FactoryStep(e)
    case Building => SettleStep(e, ok)
    case LateClosing => ClosedStep(e, ok)
    case Closing => ClosedStep(e, ok)
    case _ => if s.calls[k].stage == Asked then ReturnStep(k) else ContinueStep(k)
  }

  lemma TableEntriesExist(s: State, session: string)
    requires Inv(s)
    ensures session in s.table ==> s.table[session] < |s.entries|
  {
  }

  ghost predicate NotSetBack(s: State, s': State, k: nat) {
    && k < |s.calls| && s.calls[k].entry < |s.entries|
    && k < |s'.calls| && s'.calls[k].entry < |s'.entries| && RankAt(s', k) <= RankAt(s, k)
  }

  lemma DisposeSetsNothingBack(s: State, k: nat)
    requires Inv(s) && k < |s.calls|
    ensures NotSetBack(s, DisposeTurn(s), k)
  {
    assert CallOk(s, s.calls[k]);
    if !s.disposed {
      var s1 := s.(disposed := true);
      assert Core(s1) by {
        forall j | 0 <= j < |s1.calls| ensures CallOk(s1, s1.calls[j]) { assert CallOk(s, s.calls[j]); }
      }
      CloseAllOnlyCancels(s1, 0);
      assert CloseAll(s1, 0).calls[k] == s.calls[k];
    }
  }

  lemma ClosesSetNothingBack(s: State, step: Step, k: nat)
    requires Inv(s) && k < |s.calls| && (step.CloseStep? || step.ContinueStep? || step.ReturnStep?)
    ensures NotSetBack(s, Next(s, step), k)
  {
    assert CallOk(s, s.calls[k]);
    if step.CloseStep? { TableEntriesExist(s, step.session); }
  }

  /** No turn sets a waiting call back. */
  lemma NoTurnSetsBack(s: State, step: Step, k: nat)
    requires Inv(s) && k < |s.calls|
    ensures NotSetBack(s, Next(s, step), k)
  {
    if step.DisposeStep? {
      DisposeSetsNothingBack(s, k);
    } else if step.CloseStep? || step.ContinueStep? || step.ReturnStep? {
      ClosesSetNothingBack(s, step, k);
    } else {
      assert CallOk(s, s.calls[k]);
    }
  }

  /** The turn it waits for brings it forward. */
  lemma AwaitedTurnHelps(s: State, k: nat, ok: bool)
    requires Inv(s) && k < |s.calls| && s.calls[k].entry < |s.entries| && s.calls[k].stage != Returned
    ensures var s' := Next(s, AwaitedTurn(s, k, ok));
            k < |s'.calls| && s'.calls[k].entry < |s'.entries| && RankAt(s', k) < RankAt(s, k)
  {
    assert CallOk(s, s.calls[k]);
  }

  /** So a close returns within six of its turns, whatever the answers are. */
  lemma {:induction false} CloseTerminates(s: State, k: nat, answers: seq<bool>)
    requires Inv(s) && k < |s.calls| && s.calls[k].entry < |s.entries| && |answers| >= RankAt(s, k)
    ensures exists steps: seq<Step> ::
              |steps| <= RankAt(s, k) && k < |Run(s, steps).calls| && Run(s, steps).calls[k].stage == Returned
    decreases |answers|
  {
    if s.calls[k].stage == Returned {
      assert Run(s, []).calls[k].stage == Returned;
    } else {
      hide Inv;
      var turn := AwaitedTurn(s, k, answers[0]);
      AwaitedTurnHelps(s, k, answers[0]);
      StepKeepsInv(s, turn);
      var s1 := Next(s, turn);
      CloseTerminates(s1, k, answers[1..]);
      var steps :| |steps| <= RankAt(s1, k) && k < |Run(s1, steps).calls| && Run(s1, steps).calls[k].stage == Returned;
      assert ([turn] + steps)[1..] == steps;
      assert Run(s, [turn] + steps) == Run(s1, steps);
    }
  }

  // ------------------------------------------------------------ the owner itself

  class OpenCodeSessionOwner {
    var entries: seq<Entry>
    var table: map<string, nat>
    var calls: seq<Call>
    var disposed: bool
    var first: nat
    var last: nat

    constructor ()
      ensures View() == Start
    {
      entries, table, calls, disposed, first, last := [], map[], [], false, 0, 0;
    }

    function View(): State
      reads this
    {
      State(entries, table, calls, disposed, first, last)
    }

    method GetOrCreate(id: Identity) returns (got: Got)
      requires Inv(View())
      modifies this
      ensures (View(), got) == CreateTurn(old(View()), id)
      ensures Inv(View())
    {
      GetKeepsInv(View(), id);
      if !ValidIdentity(id) { return Invalid; }
      if disposed { return OwnerDisposed; }
      if id.session in table {
        var e := table[id.session];
        return if entries[e].identity.directory != id.directory then OtherDirectory else Joined(e);
      }
      got := Created(|entries|);
      table := table[id.session := |entries|];
      entries := entries + [Entry(id, false, Requested, 0)];
    }

    /** A call reaches the backend only while it is neither closing nor closed. */
    method CallTool(e: nat) returns (forwarded: bool)
      requires Inv(View()) && e < |entries| && (entries[e].phase == Ready || entries[e].phase == Closing || entries[e].phase.Closed?)
      ensures forwarded ==> entries[e].closes == 0 && Lookup(table, entries[e].identity.session) == Some(e)
      ensures !forwarded ==> entries[e].closes == 1
    {
      assert ClosesOk(entries[e]);
      forwarded := entries[e].phase == Ready;
    }

    method DropFromTable(e: nat)
      requires e < |entries|
      modifies this`table
      ensures View() == Forget(old(View()), e)
    {
      if Lookup(table, entries[e].identity.session) == Some(e) { table := table - {entries[e].identity.session}; }
    }

    /** The factory's promise settles. */
    method OnFactorySettled(e: nat, ok: bool)
      requires Inv(View()) && e < |entries| && entries[e].phase == Building
      modifies this
      ensures View() == FactorySettles(old(View()), e, ok)
      ensures Inv(View())
    {
      StepKeepsInv(View(), SettleStep(e, ok));
      if !ok {
        entries := entries[e := entries[e].(phase := Failed)];
        DropFromTable(e);
      } else if entries[e].cancelled {
        entries := entries[e := entries[e].(phase := LateClosing, closes := entries[e].closes + 1)];
      } else {
        entries := entries[e := entries[e].(phase := Ready)];
      }
    }

    method CloseHandle(e: nat)
      requires Inv(View()) && e < |entries|
      modifies this`entries
      ensures View() == HandleClose(old(View()), e)
      ensures Inv(View())
    {
      HandleKeepsInv(View(), e);
      if entries[e].phase == Ready {
        entries := entries[e := entries[e].(phase := Closing, closes := entries[e].closes + 1)];
      }
    }

    method OnBackendClosed(e: nat, ok: bool)
      requires Inv(View()) && e < |entries| && (entries[e].phase == LateClosing || entries[e].phase == Closing)
      modifies this
      ensures View() == CloseSettles(old(View()), e, ok)
      ensures Inv(View())
    {
      StepKeepsInv(View(), ClosedStep(e, ok));
      entries := entries[e := entries[e].(phase := Closed(entries[e].phase == LateClosing, ok))];
      DropFromTable(e);
    }

    /** close() up to its first await. */
    method Close(session: string, directory: Option<string>) returns (call: Option<nat>)
      requires Inv(View())
      modifies this
      ensures (View(), call) == CloseTurn(old(View()), session, directory)
      ensures Inv(View())
    {
      CloseKeepsInv(View(), session, directory);
      if session !in table { return None; }
      var e := table[session];
      if directory.Some? && entries[e].identity.directory != directory.value { return None; }
      call := Some(|calls|);
      entries := entries[e := entries[e].(cancelled := true)];
      calls := calls + [Call(e, Waiting)];
    }

    /** close() goes on once the creation has settled; a result means it has returned (true) or thrown. */
    method OnCreationSettled(k: nat) returns (returned: Option<bool>)
      requires Inv(View()) && k < |calls| && calls[k].stage == Waiting
      modifies this
      ensures View() == CloseContinues(old(View()), k)
      ensures Inv(View())
      ensures returned.Some? <==> calls[k].stage == Returned
      ensures returned.Some? ==> calls[k].entry < |entries| && (returned.value <==> entries[calls[k].entry].phase.Closed? && entries[calls[k].entry].phase.ok)
    {
      ContinueKeepsInv(View(), k);
      assert CallOk(View(), calls[k]);
      var e := calls[k].entry;
      var phase := entries[e].phase;
      if phase == Ready || phase == Closing || (phase.Closed? && !phase.late) {
        if phase == Ready {
          entries := entries[e := entries[e].(phase := Closing, closes := entries[e].closes + 1)];
        }
        calls := calls[k := Call(e, Asked)];
        return None;
      }
      if !Settled(phase) { return None; }
      calls := calls[k := Call(e, Returned)];
      DropFromTable(e);
      return Some(CloseSucceeds(phase));
    }

    /** dispose(): close every session, oldest first. */
    method Dispose()
      requires Inv(View())
      modifies this
      ensures View() == DisposeTurn(old(View()))
      ensures Inv(View())
    {
      DisposeKeepsInv(View());
      if disposed { return; }
      var start := |calls|;
      disposed := true;
      ghost var goal := CloseAll(View(), 0);
      var e := 0;
      while e < |entries|
        invariant e <= |entries|
        invariant CloseAll(View(), e) == goal
      {
        if Lookup(table, entries[e].identity.session) == Some(e) {
          entries := entries[e := entries[e].(cancelled := true)];
          calls := calls + [Call(e, Waiting)];
        }
        e := e + 1;
      }
      first, last := start, |calls|;
    }
  }
}
