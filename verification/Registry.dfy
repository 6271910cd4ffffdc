/**
 * Registry rollback bookkeeping (src/core/session-store.ts).
 *
 * Three hashes keyed by agent name let any number of failed registrations undo
 * exactly their own write. Every script below is one atomic step; a client
 * that crashes, or loses the reply of its write, abandons its attempt.
 */
module Registry {
  import opened Options

  type Name = string
  type AttemptId = nat

  /**
   * The raw JSON strings of the registry. A provisional value carries only the
   * registration time; a completed one also carries the process id, so the two
   * kinds never coincide. Two provisional values of the same millisecond can.
   */
  datatype Value =
    | Provisional(fields: string, registeredAt: int)
    | Completed(fields: string, registeredAt: int, pid: int)

  datatype Hashes = Hashes(
    registry: map<Name, Value>,
    pending: map<Name, Value>,
    restore: map<Name, Value>)

  // ---------------------------------------------------------------- scripts

  function WriteProvisional(h: Hashes, n: Name, v: Value): Hashes {
    var prev := Lookup(h.registry, n);
    var restore := if prev.Some? && prev == Lookup(h.pending, n) then Lookup(h.restore, n) else prev;
    Hashes(h.registry[n := v], h.pending[n := v], Put(h.restore, n, restore))
  }

  function UndoWrite(h: Hashes, n: Name, v: Value): Hashes {
    if Lookup(h.registry, n) != Some(v) then
      if Lookup(h.pending, n) == Some(v) then h.(pending := h.pending - {n}) else h
    else
      Hashes(Put(h.registry, n, Lookup(h.restore, n)), h.pending - {n}, h.restore - {n})
  }

  function Publish(h: Hashes, n: Name, v: Value): Hashes {
    Hashes(h.registry[n := v], h.pending - {n}, h.restore - {n})
  }

  /** HDEL of the registry entry alone: the side hashes keep whatever they held. */
  function Retire(h: Hashes, n: Name): Hashes {
    h.(registry := h.registry - {n})
  }

  /** The same scripts as Redis runs them, updating the three hashes in place. */
  class RegistryStore {
    var registry: map<Name, Value>
    var pending: map<Name, Value>
    var restore: map<Name, Value>

    function Contents(): Hashes
      reads this
    {
      Hashes(registry, pending, restore)
    }

    constructor ()
      ensures Contents() == Hashes(map[], map[], map[])
    {
      registry, pending, restore := map[], map[], map[];
    }

    method WriteProvisionalValue(n: Name, v: Value)
      modifies this
      ensures Contents() == WriteProvisional(old(Contents()), n, v)
    {
      var prev := Lookup(registry, n);
      var pend := Lookup(pending, n);
      var carried := Lookup(restore, n);
      var toRestore := prev;
      if prev.Some? && prev == pend {
        toRestore := carried;
      }
      registry := registry[n := v];
      pending := pending[n := v];
      if toRestore.Some? {
        restore := restore[n := toRestore.value];
      } else {
        restore := restore - {n};
      }
    }

    /** Returns whether the registry still held v and was rolled back. */
    method UndoRegistryWrite(n: Name, v: Value) returns (undone: bool)
      modifies this
      ensures Contents() == UndoWrite(old(Contents()), n, v)
      ensures undone <==> Lookup(old(registry), n) == Some(v)
      ensures !undone ==> registry == old(registry)
    {
      if n !in registry || registry[n] != v {
        if n in pending && pending[n] == v {
          pending := pending - {n};
        }
        return false;
      }
      if n in restore {
        registry := registry[n := restore[n]];
      } else {
        registry := registry - {n};
      }
      pending := pending - {n};
      restore := restore - {n};
      return true;
    }

    method PublishRegistration(n: Name, v: Value)
      modifies this
      ensures Contents() == Publish(old(Contents()), n, v)
    {
      registry := registry[n := v];
      pending := pending - {n};
      restore := restore - {n};
    }

    method RetireName(n: Name)
      modifies this
      ensures Contents() == Retire(old(Contents()), n)
    {
      registry := registry - {n};
    }
  }

  // ------------------------------------------------------------------- runs

  datatype Attempt = Attempt(name: Name, value: Value)

  /** The hashes plus what an observer of the run knows about them. */
  datatype World = World(
    hashes: Hashes,
    completed: map<Name, Value>,         // last completed value of each name
    inFlight: map<AttemptId, Attempt>,   // written, to be undone or published yet
    abandoned: map<AttemptId, Attempt>,  // written, and never to be undone or published
    started: set<AttemptId>)             // every attempt that ever wrote

  datatype Event =
    | Write(id: AttemptId, attempt: Attempt)
    | Undo(id: AttemptId)
    | Complete(name: Name, value: Value, owner: Option<AttemptId>)
    | Drop(name: Name)
    | Abandon(id: AttemptId)

  predicate Enabled(w: World, e: Event) {
    match e
    case Write(id, a) => id !in w.started && a.value.Provisional?
    case Undo(id) => id in w.inFlight
    case Complete(n, v, owner) =>
      v.Completed? && (owner.Some? ==> owner.value in w.inFlight && w.inFlight[owner.value].name == n)
    case Drop(_) => true
    case Abandon(id) => id in w.inFlight
  }

  function NextInFlight(f: map<AttemptId, Attempt>, e: Event): map<AttemptId, Attempt> {
    match e
    case Write(id, a) => f[id := a]
    case Undo(id) => f - {id}
    case Complete(_, _, owner) => if owner.Some? then f - {owner.value} else f
    case Drop(_) => f
    case Abandon(id) => f - {id}
  }

  function Step(w: World, e: Event): World
    requires Enabled(w, e)
  {
    var next := w.(inFlight := NextInFlight(w.inFlight, e));
    match e
    case Write(id, a) =>
      next.(hashes := WriteProvisional(w.hashes, a.name, a.value), started := w.started + {id})
    case Undo(id) =>
      next.(hashes := UndoWrite(w.hashes, w.inFlight[id].name, w.inFlight[id].value))
    case Complete(n, v, _) =>
      next.(hashes := Publish(w.hashes, n, v), completed := w.completed[n := v])
    case Drop(n) =>
      next.(hashes := Retire(w.hashes, n), completed := w.completed - {n})
    case Abandon(id) =>
      next.(abandoned := w.abandoned[id := w.inFlight[id]])
  }

  predicate ValidRun(w: World, es: seq<Event>)
    decreases |es|
  {
    es == [] || (Enabled(w, es[0]) && ValidRun(Step(w, es[0]), es[1..]))
  }

  function Run(w: World, es: seq<Event>): World
    requires ValidRun(w, es)
    decreases |es|
  {
    if es == [] then w else Run(Step(w, es[0]), es[1..])
  }

  ghost predicate InFlight(w: World, n: Name, v: Value) {
    exists id :: id in w.inFlight && w.inFlight[id] == Attempt(n, v)
  }

  ghost predicate Abandoned(w: World, n: Name, v: Value) {
    exists id :: id in w.abandoned && w.abandoned[id] == Attempt(n, v)
  }

  /** Some attempt wrote v under the name and has neither undone it nor published. */
  ghost predicate Unresolved(w: World, n: Name, v: Value) {
    InFlight(w, n, v) || Abandoned(w, n, v)
  }

  /** The registry shows a provisional value whose rollback state is live. */
  predicate OnTop(h: Hashes, n: Name) {
    n in h.registry && Lookup(h.pending, n) == Some(h.registry[n])
  }

  ghost predicate NameInv(w: World, n: Name) {
    && (n in w.completed ==> w.completed[n].Completed?)
    && (n in w.hashes.pending ==> Unresolved(w, n, w.hashes.pending[n]))
    && (if OnTop(w.hashes, n)
        then Lookup(w.hashes.restore, n) == Lookup(w.completed, n)
        else Lookup(w.hashes.registry, n) == Lookup(w.completed, n))
  }

  ghost predicate Inv(w: World) {
    && (forall id :: id in w.inFlight ==> id in w.started && w.inFlight[id].value.Provisional?)
    && (forall id :: id in w.abandoned ==> id in w.started && id !in w.inFlight && w.abandoned[id].value.Provisional?)
    && (forall n :: NameInv(w, n))
  }

  /** A name no attempt is in flight for, with no rollback state. */
  predicate Clean(w: World, n: Name) {
    n !in w.hashes.pending && n !in w.hashes.restore
  }

  /** One script, of any client, keeps the invariant of every name. */
  lemma StepKeepsInv(w: World, e: Event)
    requires Inv(w) && Enabled(w, e)
    ensures Inv(Step(w, e))
  {
    var w' := Step(w, e);
    forall n ensures NameInv(w', n) {
      assert NameInv(w, n);
      if n in w'.hashes.pending {
        if e.Write? && n == e.attempt.name {
          assert w'.inFlight[e.id] == e.attempt;
        } else {
          PendingStaysUnresolved(w, e, n);
        }
      }
    }
  }

  /** The attempt behind a pending value is still unresolved while the value is pending. */
  lemma PendingStaysUnresolved(w: World, e: Event, n: Name)
    requires Inv(w) && Enabled(w, e)
    requires n in Step(w, e).hashes.pending && !(e.Write? && n == e.attempt.name)
    ensures n in w.hashes.pending && Unresolved(Step(w, e), n, Step(w, e).hashes.pending[n])
  {
    var w' := Step(w, e);
    assert NameInv(w, n);
    var v := w.hashes.pending[n];
    assert w'.hashes.pending[n] == v;
    if k :| k in w.abandoned && w.abandoned[k] == Attempt(n, v) {
      assert k in w'.abandoned && w'.abandoned[k] == Attempt(n, v);
    } else {
      var k :| k in w.inFlight && w.inFlight[k] == Attempt(n, v);
      if e == Abandon(k) {
        assert w'.abandoned[k] == Attempt(n, v);
      } else {
        assert k in w'.inFlight && w'.inFlight[k] == Attempt(n, v);
      }
    }
  }

  lemma {:induction false} RunKeepsInv(w: World, es: seq<Event>)
    requires Inv(w) && ValidRun(w, es)
    ensures Inv(Run(w, es))
    decreases |es|
  {
    if es != [] {
      StepKeepsInv(w, es[0]);
      RunKeepsInv(Step(w, es[0]), es[1..]);
    }
  }

  ghost predicate NoneInFlight(w: World, n: Name) {
    forall id :: id in w.inFlight ==> w.inFlight[id].name != n
  }

  ghost predicate NoneAbandoned(w: World, n: Name) {
    forall id :: id in w.abandoned ==> w.abandoned[id].name != n
  }

  /**
   * Safety over every run: a name's registry entry is the value of an attempt
   * in flight or abandoned, or exactly the last completed value; and the
   * latter once no attempt is in flight and none was abandoned, whatever was
   * retired, published or left behind on the way.
   */
  lemma RegistryIsInFlightOrCompleted(w: World, es: seq<Event>, n: Name)
    requires Inv(w) && ValidRun(w, es)
    ensures var f := Run(w, es);
            && (Lookup(f.hashes.registry, n) == Lookup(f.completed, n)
                || (n in f.hashes.registry && Unresolved(f, n, f.hashes.registry[n])))
            && (NoneInFlight(f, n) && NoneAbandoned(f, n) ==>
                  Lookup(f.hashes.registry, n) == Lookup(f.completed, n) && n !in f.hashes.pending)
            && (NoneInFlight(f, n) && Lookup(f.hashes.registry, n) != Lookup(f.completed, n) ==>
                  n in f.hashes.registry && Abandoned(f, n, f.hashes.registry[n]))
  {
    RunKeepsInv(w, es);
    var f := Run(w, es);
    assert NameInv(f, n);
  }

  /** What an undo does to every name, stated by the last completed value. */
  lemma UndoRestoresLastCompleted(w: World, id: AttemptId, m: Name)
    requires Inv(w) && id in w.inFlight
    ensures var a := w.inFlight[id];
            Lookup(Step(w, Undo(id)).hashes.registry, m) ==
            if m == a.name && Lookup(w.hashes.registry, m) == Some(a.value)
            then Lookup(w.completed, m) else Lookup(w.hashes.registry, m)
  {
    assert NameInv(w, m);
    var a := w.inFlight[id];
    assert a.value.Provisional?;
  }

  // ------------------------------------------------- failed attempts vanish

  /** Only retirement leaves a restore value that belongs to no live write. */
  ghost predicate Tidy(w: World, n: Name) {
    n in w.hashes.restore ==> OnTop(w.hashes, n)
  }

  predicate OnlyAttempts(es: seq<Event>) {
    forall i :: 0 <= i < |es| ==> es[i].Write? || es[i].Undo?
  }

  lemma {:induction false} AttemptsKeepCompleted(w: World, es: seq<Event>, n: Name)
    requires Inv(w) && Tidy(w, n) && ValidRun(w, es) && OnlyAttempts(es)
    ensures Run(w, es).completed == w.completed && Tidy(Run(w, es), n)
    decreases |es|
  {
    if es != [] {
      StepKeepsInv(w, es[0]);
      assert es[0].Write? || es[0].Undo?;
      assert NameInv(w, n);
      AttemptsKeepCompleted(Step(w, es[0]), es[1..], n);
    }
  }

  lemma {:induction false} AttemptsAbandonNothing(w: World, es: seq<Event>)
    requires ValidRun(w, es) && OnlyAttempts(es)
    ensures Run(w, es).abandoned == w.abandoned
    decreases |es|
  {
    if es != [] {
      assert es[0].Write? || es[0].Undo?;
      AttemptsAbandonNothing(Step(w, es[0]), es[1..]);
    }
  }

  /**
   * Any interleaving of any number of overlapping failed registrations leaves
   * all three hashes exactly as they were once every attempt has been undone.
   */
  lemma FailedAttemptsLeaveNoTrace(w: World, es: seq<Event>, n: Name)
    requires Inv(w) && Clean(w, n) && ValidRun(w, es) && OnlyAttempts(es)
    requires NoneInFlight(Run(w, es), n) && NoneAbandoned(w, n)
    ensures Clean(Run(w, es), n)
    ensures Lookup(Run(w, es).hashes.registry, n) == Lookup(w.hashes.registry, n)
  {
    RunKeepsInv(w, es);
    AttemptsKeepCompleted(w, es, n);
    AttemptsAbandonNothing(w, es);
    assert NameInv(w, n);
    assert NameInv(Run(w, es), n);
  }

  // --------------------------------------- an undo never hits a later write

  /** The event puts something other than v, or nothing, under the name. */
  predicate WritesOver(e: Event, n: Name, v: Value) {
    || (e.Write? && e.attempt.name == n && e.attempt.value != v)
    || (e.Complete? && e.name == n)
    || (e.Drop? && e.name == n)
  }

  predicate Rewrites(e: Event, n: Name, v: Value) {
    e.Write? && e.attempt == Attempt(n, v)
  }

  lemma {:induction false} OverwrittenStaysOverwritten(w: World, es: seq<Event>, n: Name, v: Value)
    requires Inv(w) && ValidRun(w, es) && v.Provisional?
    requires forall i :: 0 <= i < |es| ==> !Rewrites(es[i], n, v)
    requires Lookup(w.hashes.registry, n) != Some(v)
             || exists i :: 0 <= i < |es| && WritesOver(es[i], n, v)
    ensures Lookup(Run(w, es).hashes.registry, n) != Some(v)
    decreases |es|
  {
    if es != [] {
      var w' := Step(w, es[0]);
      StepKeepsInv(w, es[0]);
      assert NameInv(w, n) && !Rewrites(es[0], n, v);
      if es[0].Undo? { UndoRestoresLastCompleted(w, es[0].id, n); }
      if !WritesOver(es[0], n, v) && Lookup(w.hashes.registry, n) == Some(v) {
        var i :| 0 <= i < |es| && WritesOver(es[i], n, v);
        assert es[1..][i - 1] == es[i];
      }
      OverwrittenStaysOverwritten(w', es[1..], n, v);
    }
  }

  /**
   * Once any other registration, publication or retirement of the name has
   * followed an attempt's write, that attempt's undo changes no registry entry.
   * Premise: no later attempt on the name wrote the very same string.
   */
  lemma UndoSparesLaterWrites(w: World, id: AttemptId, es: seq<Event>, k: nat)
    requires Inv(w) && id in w.inFlight && ValidRun(w, es)
    requires var a := w.inFlight[id];
             && (forall i :: 0 <= i < |es| ==> !Rewrites(es[i], a.name, a.value))
             && k < |es| && WritesOver(es[k], a.name, a.value)
    requires id in Run(w, es).inFlight && Run(w, es).inFlight[id] == w.inFlight[id]
    ensures var f := Run(w, es);
            Step(f, Undo(id)).hashes.registry == f.hashes.registry
  {
    var a := w.inFlight[id];
    RunKeepsInv(w, es);
    OverwrittenStaysOverwritten(w, es, a.name, a.value);
  }

  /**
   * The premise is exact. While another attempt's write is on top, an undo
   * removes it if and only if both attempts wrote the same string, which two
   * registrations of one name within the same millisecond do.
   */
  lemma UndoHitsOtherWriteIffSameValue(w: World, id: AttemptId, other: AttemptId)
    requires Inv(w) && id in w.inFlight && other in w.inFlight && id != other
    requires w.inFlight[id].name == w.inFlight[other].name
    requires Lookup(w.hashes.registry, w.inFlight[other].name) == Some(w.inFlight[other].value)
    ensures Lookup(Step(w, Undo(id)).hashes.registry, w.inFlight[other].name) != Some(w.inFlight[other].value)
            <==> w.inFlight[id].value == w.inFlight[other].value
  {
    var n := w.inFlight[other].name;
    assert NameInv(w, n);
    UndoRestoresLastCompleted(w, id, n);
  }

  /** A publication settles its name: the value shows, and no attempt of before can be undone over it. A retirement leaves the bookkeeping. */
  lemma PublicationSettlesTheName(h: Hashes, n: Name, v: Value, earlier: Value)
    requires earlier != v
    ensures var p := Publish(h, n, v);
            && Lookup(p.registry, n) == Some(v) && n !in p.pending && n !in p.restore && UndoWrite(p, n, earlier) == p
            && (forall m :: m != n ==> SameAt(p, h, m))
    ensures var r := Retire(h, n);
            n !in r.registry && r.pending == h.pending && r.restore == h.restore && forall m :: m != n ==> SameAt(r, h, m)
  {
  }

  // ------------------------------------------------ an abandoned attempt

  /**
   * An abandoned attempt whose write is on top keeps showing exactly until the
   * name is written, published or retired again; nobody restores it.
   */
  lemma {:induction false} AbandonedEntryStaysUntilOverwritten(w: World, n: Name, v: Value, es: seq<Event>)
    requires Inv(w) && ValidRun(w, es) && v.Provisional? && Lookup(w.hashes.registry, n) == Some(v)
    requires !InFlight(w, n, v) && forall i :: 0 <= i < |es| ==> !Rewrites(es[i], n, v)
    ensures Lookup(Run(w, es).hashes.registry, n) == Some(v) <==> forall i :: 0 <= i < |es| ==> !WritesOver(es[i], n, v)
    decreases |es|
  {
    if es != [] {
      var w' := Step(w, es[0]);
      StepKeepsInv(w, es[0]);
      assert !Rewrites(es[0], n, v);
      if WritesOver(es[0], n, v) {
        OverwrittenStaysOverwritten(w, es, n, v);
      } else {
        StaysUnclaimed(w, es[0], n, v);
        AbandonedEntryStaysUntilOverwritten(w', n, v, es[1..]);
        if !forall i :: 0 <= i < |es| ==> !WritesOver(es[i], n, v) {
          var i :| 0 <= i < |es| && WritesOver(es[i], n, v);
          assert es[1..][i - 1] == es[i];
        }
      }
    }
  }

  lemma StaysUnclaimed(w: World, e: Event, n: Name, v: Value)
    requires Inv(w) && Enabled(w, e) && v.Provisional? && Lookup(w.hashes.registry, n) == Some(v)
    requires !InFlight(w, n, v) && !Rewrites(e, n, v) && !WritesOver(e, n, v)
    ensures Lookup(Step(w, e).hashes.registry, n) == Some(v) && !InFlight(Step(w, e), n, v)
  {
    if e.Undo? {
      assert w.inFlight[e.id] != Attempt(n, v);
      UndoRestoresLastCompleted(w, e.id, n);
    }
    var w' := Step(w, e);
    forall k | k in w'.inFlight ensures w'.inFlight[k] != Attempt(n, v) {
      assert k in w.inFlight ==> w.inFlight[k] != Attempt(n, v);
    }
  }

  /** The next attempt on the name that is undone heals it: the last completed value is back. */
  lemma UndoneAttemptHealsAbandonedEntry(w: World, n: Name, id: AttemptId, v: Value)
    requires Inv(w) && Enabled(w, Write(id, Attempt(n, v)))
    ensures var during := Step(w, Write(id, Attempt(n, v)));
            Enabled(during, Undo(id)) && Lookup(Step(during, Undo(id)).hashes.registry, n) == Lookup(w.completed, n)
  {
    StepKeepsInv(w, Write(id, Attempt(n, v)));
    UndoRestoresLastCompleted(Step(w, Write(id, Attempt(n, v))), id, n);
  }

  /** A write whose caller never hears of it: the provisional entry is there to stay. */
  lemma AbandonedWriteLeavesProvisionalEntry(w: World, n: Name, id: AttemptId, v: Value)
    requires Inv(w) && Enabled(w, Write(id, Attempt(n, v)))
    ensures var after := Step(Step(w, Write(id, Attempt(n, v))), Abandon(id));
            Lookup(after.hashes.registry, n) == Some(v) != Lookup(after.completed, n)
  {
    assert NameInv(w, n);
  }

  // --------------------------- an undone attempt might never have happened

  /** Two runs of the same history, o without attempt id and w with it. */
  ghost predicate Twin(w: World, o: World, id: AttemptId, a: Attempt) {
    && Inv(w) && Inv(o) && a.value.Provisional?
    && id !in o.started && !Unresolved(o, a.name, a.value)
    && w.started == o.started + {id} && w.completed == o.completed
    && w.inFlight == o.inFlight[id := a] && w.abandoned == o.abandoned
    && (forall m :: m != a.name ==> SameAt(w.hashes, o.hashes, m))
    && TopAgrees(w, o, a)
  }

  predicate SameAt(g: Hashes, h: Hashes, m: Name) {
    && Lookup(g.registry, m) == Lookup(h.registry, m)
    && Lookup(g.pending, m) == Lookup(h.pending, m)
    && Lookup(g.restore, m) == Lookup(h.restore, m)
  }

  /** Every script decides each name from that name's own three fields. */
  lemma StepIsPerName(w: World, o: World, e: Event, m: Name)
    requires Enabled(w, e) && Enabled(o, e) && SameAt(w.hashes, o.hashes, m)
    requires e.Undo? ==> w.inFlight[e.id] == o.inFlight[e.id]
    ensures SameAt(Step(w, e).hashes, Step(o, e).hashes, m)
  {
    match e {
      case Write(id, x) => WriteIsPerName(w.hashes, o.hashes, x.name, x.value, m);
      case Undo(id) => UndoIsPerName(w.hashes, o.hashes, w.inFlight[id].name, w.inFlight[id].value, m);
      case Complete(n, v, owner) =>
      case Drop(n) =>
      case Abandon(id) =>
    }
  }

  lemma WriteIsPerName(g: Hashes, h: Hashes, n: Name, v: Value, m: Name)
    requires SameAt(g, h, m)
    ensures SameAt(WriteProvisional(g, n, v), WriteProvisional(h, n, v), m)
  {
    if m == n { assert Lookup(g.registry, n) == Lookup(h.registry, n); }
  }

  lemma UndoIsPerName(g: Hashes, h: Hashes, n: Name, v: Value, m: Name)
    requires SameAt(g, h, m)
    ensures SameAt(UndoWrite(g, n, v), UndoWrite(h, n, v), m)
  {
    if m == n { assert Lookup(g.registry, n) == Lookup(h.registry, n); }
  }

  ghost predicate TopAgrees(w: World, o: World, a: Attempt) {
    var top := Lookup(w.hashes.registry, a.name);
    || top == Some(a.value)
    || top == Lookup(o.hashes.registry, a.name)
    || (top == Lookup(o.completed, a.name) && OnTop(o.hashes, a.name))
  }

  predicate Foreign(e: Event, id: AttemptId, a: Attempt) {
    (e.Write? ==> e.id != id && e.attempt != a) && e != Undo(id) && e != Abandon(id)
  }

  lemma TwinInFlight(f: map<AttemptId, Attempt>, id: AttemptId, a: Attempt, e: Event)
    requires id !in f && Foreign(e, id, a) && (forall k :: k in f ==> f[k] != a)
    requires e.Undo? || e.Abandon? ==> e.id in f
    requires e.Complete? && e.owner.Some? ==> e.owner.value in f
    ensures NextInFlight(f[id := a], e) == NextInFlight(f, e)[id := a]
    ensures forall k :: k in NextInFlight(f, e) ==> NextInFlight(f, e)[k] != a
  {
    match e {
      case Write(k, x) => assert f[id := a][k := x] == f[k := x][id := a];
      case Undo(k) => assert f[id := a] - {k} == (f - {k})[id := a];
      case Complete(_, _, owner) =>
        if owner.Some? { assert f[id := a] - {owner.value} == (f - {owner.value})[id := a]; }
      case Drop(_) =>
      case Abandon(k) => assert f[id := a] - {k} == (f - {k})[id := a];
    }
  }

  lemma TwinEnabled(w: World, o: World, id: AttemptId, a: Attempt, e: Event)
    requires Twin(w, o, id, a) && Enabled(o, e) && Foreign(e, id, a)
    ensures Enabled(w, e) && (e.Undo? ==> e.id in o.inFlight && w.inFlight[e.id] == o.inFlight[e.id] != a)
    ensures NextInFlight(w.inFlight, e) == NextInFlight(o.inFlight, e)[id := a]
    ensures Step(w, e).abandoned == Step(o, e).abandoned
    ensures !Unresolved(Step(o, e), a.name, a.value)
  {
    assert id !in o.inFlight;
    forall k | k in o.inFlight ensures o.inFlight[k] != a { assert !Unresolved(o, a.name, a.value); }
    TwinInFlight(o.inFlight, id, a, e);
    var o' := Step(o, e);
    forall k | k in o'.inFlight ensures o'.inFlight[k] != a {}
    forall k | k in o'.abandoned ensures o'.abandoned[k] != a {
      if k in o.abandoned { assert !Abandoned(o, a.name, a.value); }
    }
  }

  lemma TwinStep(w: World, o: World, id: AttemptId, a: Attempt, e: Event)
    requires Twin(w, o, id, a) && Enabled(o, e) && Foreign(e, id, a)
    ensures Enabled(w, e) && Twin(Step(w, e), Step(o, e), id, a)
  {
    TwinEnabled(w, o, id, a, e);
    StepKeepsInv(w, e);
    StepKeepsInv(o, e);
    assert NameInv(w, a.name) && NameInv(o, a.name);
    var w', o' := Step(w, e), Step(o, e);
    forall m | m != a.name ensures SameAt(w'.hashes, o'.hashes, m) {
      assert SameAt(w.hashes, o.hashes, m);
      StepIsPerName(w, o, e, m);
    }
    hide Unresolved, SameAt;
    if e.Undo? {
      TwinUndoKeepsTop(w, o, id, a, e.id);
    }
  }

  lemma TwinUndoKeepsTop(w: World, o: World, id: AttemptId, a: Attempt, k: AttemptId)
    requires Twin(w, o, id, a) && k in o.inFlight && k in w.inFlight && w.inFlight[k] == o.inFlight[k] != a
    ensures TopAgrees(Step(w, Undo(k)), Step(o, Undo(k)), a)
  {
    var n := a.name;
    assert NameInv(w, n) && NameInv(o, n);
    UndoRestoresLastCompleted(w, k, n);
    UndoRestoresLastCompleted(o, k, n);
  }

  lemma {:induction false} TwinRun(w: World, o: World, id: AttemptId, a: Attempt, es: seq<Event>)
    requires Twin(w, o, id, a) && ValidRun(o, es)
    requires forall i :: 0 <= i < |es| ==> Foreign(es[i], id, a)
    ensures ValidRun(w, es) && Twin(Run(w, es), Run(o, es), id, a)
    decreases |es|
  {
    if es != [] {
      TwinStep(w, o, id, a, es[0]);
      TwinRun(Step(w, es[0]), Step(o, es[0]), id, a, es[1..]);
    }
  }

  ghost predicate Undone(after: World, never: World, a: Attempt) {
    && after.inFlight == never.inFlight && after.completed == never.completed && after.abandoned == never.abandoned
    && (forall m :: m != a.name ==> Lookup(after.hashes.registry, m) == Lookup(never.hashes.registry, m))
    && (|| Lookup(after.hashes.registry, a.name) == Lookup(never.hashes.registry, a.name)
        || (OnTop(never.hashes, a.name) &&
            Lookup(after.hashes.registry, a.name) == Lookup(never.completed, a.name)))
  }

  /**
   * Undo is exact: for every history es of other clients, writing, living
   * through es and undoing leaves the registry that es alone would have left.
   * The one difference: where es leaves an attempt of its own on top, the name
   * may already show its last completed value instead.
   */
  lemma UndoneAttemptMightNeverHaveBeen(w: World, id: AttemptId, a: Attempt, es: seq<Event>)
    requires Inv(w) && Enabled(w, Write(id, a)) && !Unresolved(w, a.name, a.value)
    requires ValidRun(w, es) && forall i :: 0 <= i < |es| ==> Foreign(es[i], id, a)
    ensures var during := Step(w, Write(id, a));
            ValidRun(during, es) && id in Run(during, es).inFlight &&
            Undone(Step(Run(during, es), Undo(id)), Run(w, es), a)
  {
    StepKeepsInv(w, Write(id, a));
    TwinRun(Step(w, Write(id, a)), w, id, a, es);
    TwinUndo(Run(Step(w, Write(id, a)), es), Run(w, es), id, a);
  }

  lemma TwinUndo(w: World, o: World, id: AttemptId, a: Attempt)
    requires Twin(w, o, id, a)
    ensures id in w.inFlight
    ensures var after := Step(w, Undo(id)); Undone(after, o, a)
  {
    assert NameInv(w, a.name) && NameInv(o, a.name);
    UndoRestoresLastCompleted(w, id, a.name);
    assert id !in o.inFlight;
    forall m | m != a.name ensures Lookup(Step(w, Undo(id)).hashes.registry, m) == Lookup(o.hashes.registry, m) {
      assert SameAt(w.hashes, o.hashes, m);
    }
  }

  /** Two same-millisecond attempts: the first one's undo removes the second one's live entry. */
  lemma SameMillisecondUndoRemovesOtherWrite()
    ensures exists w, es, id, other ::
              && Inv(w) && ValidRun(w, es) && id in Run(w, es).inFlight && other in Run(w, es).inFlight
              && id != other
              && (var f := Run(w, es);
                  && Lookup(f.hashes.registry, f.inFlight[other].name) == Some(f.inFlight[other].value)
                  && f.inFlight[other].name !in Step(f, Undo(id)).hashes.registry)
  {
    var h := Hashes(map[], map[], map[]);
    var w := World(h, map[], map[], map[], {});
    var a := Attempt("n", Provisional("role", 0));
    var es := [Write(1, a), Write(2, a)];
    assert Inv(w) by { forall n ensures NameInv(w, n) {} }
    var w1 := Step(w, es[0]);
    var w2 := Step(w1, es[1]);
    assert es[1..] == [Write(2, a)] && es[1..][1..] == [];
    assert Enabled(w1, es[1]);
    assert ValidRun(w2, []) && ValidRun(w1, es[1..]) && ValidRun(w, es);
    assert Run(w1, es[1..]) == w2 && Run(w, es) == w2;
    assert 1 in w2.inFlight && 2 in w2.inFlight;
    assert "n" !in Step(w2, Undo(1)).hashes.registry;
  }
}
