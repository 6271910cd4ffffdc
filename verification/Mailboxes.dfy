/**
 * All mailboxes over the one shared claims hash, with the mailbox migration of
 * a rename (src/core/mailbox-store.ts, migrate-messages.lua).
 */
module Mailboxes {
  import opened Options
  import opened Claims

  datatype Store = Store(claims: map<ClaimId, Claim>, boxes: map<Actor, Box>)

  function BoxOf(s: Store, a: Actor): Box {
    if a in s.boxes then s.boxes[a] else EmptyBox()
  }

  function ViewOf(s: Store, a: Actor): View {
    View(s.claims, BoxOf(s, a))
  }

  function WithView(s: Store, a: Actor, v: View): Store {
    Store(v.claims, s.boxes[a := v.box])
  }

  /** migrate-messages.lua with the claims guard and both dead-letter queues. */
  function Migrate(s: Store, from: Actor, to: Actor): (Store, Option<nat>) {
    var src, dst := BoxOf(s, from), BoxOf(s, to);
    if from == to then (s, Some(0))
    else if src.index != [] then (s, None)
    else
      (s.(boxes := s.boxes[to := Absorb(dst, src)][from := Vacate(src)]), Some(|src.inbox|))
  }

  function Contents(b: Box): multiset<Task> {
    multiset(b.inbox) + multiset(b.dlq)
  }

  /** RPUSH of the source inbox; LPUSH of the source dead letters, then LTRIM. */
  function Absorb(dst: Box, src: Box): Box {
    var b := dst.(inbox := dst.inbox + src.inbox,
                  ledger := dst.ledger.(movedIn := dst.ledger.movedIn + Contents(src)));
    if src.dlq == [] then b else PushDead(b, src.dlq)
  }

  function Vacate(src: Box): Box {
    src.(inbox := [], dlq := [], ledger := src.ledger.(movedOut := src.ledger.movedOut + Contents(src)))
  }

  datatype StoreEvent = At(actor: Actor, event: Event) | Move(from: Actor, to: Actor)

  predicate StoreEnabled(s: Store, e: StoreEvent) {
    e.At? ==> Enabled(ViewOf(s, e.actor), e.actor, e.event)
  }

  function StoreStep(s: Store, e: StoreEvent): Store
    requires StoreEnabled(s, e)
  {
    match e
    case At(a, event) => WithView(s, a, Step(ViewOf(s, a), a, event))
    case Move(from, to) => Migrate(s, from, to).0
  }

  predicate ValidStoreRun(s: Store, es: seq<StoreEvent>)
    decreases |es|
  {
    es == [] || (StoreEnabled(s, es[0]) && ValidStoreRun(StoreStep(s, es[0]), es[1..]))
  }

  function StoreRun(s: Store, es: seq<StoreEvent>): Store
    requires ValidStoreRun(s, es)
    decreases |es|
  {
    if es == [] then s else StoreRun(StoreStep(s, es[0]), es[1..])
  }

  ghost predicate StoreInv(s: Store) {
    forall a :: Inv(ViewOf(s, a), a)
  }

  /** Another actor's scripts leave a mailbox's invariant alone. */
  lemma OtherMailboxKept(v: View, w: View, a: Actor, b: Actor)
    requires Inv(v, b) && OthersKept(v, w, a) && a != b && w.box == v.box
    ensures Inv(w, b)
  {
    HeldFrame(v.claims, w.claims, v.box.index);
  }

  lemma VacateKeepsInv(v: View, a: Actor)
    requires Inv(v, a)
    ensures Inv(v.(box := Vacate(v.box)), a)
  {
    assert Placed(v.box) == Placed(Vacate(v.box)) + Contents(v.box);
  }

  lemma AbsorbAdds(dst: Box, src: Box)
    requires |dst.dlq| <= DLQ_MAX_LENGTH
    ensures var b := Absorb(dst, src);
            && Placed(b) == Placed(dst) + Contents(src) && |b.dlq| <= DLQ_MAX_LENGTH
            && b.index == dst.index && b.counters == dst.counters && b.inbox == dst.inbox + src.inbox
            && b.dlq == Trim(src.dlq + dst.dlq)
            && b.ledger == dst.ledger.(movedIn := dst.ledger.movedIn + Contents(src),
                             trimmed := dst.ledger.trimmed + multiset(Trimmed(src.dlq + dst.dlq)))
  {
    var b := dst.(inbox := dst.inbox + src.inbox);
    assert Placed(b) == Placed(dst) + multiset(src.inbox);
    if src.dlq == [] {
      assert src.dlq + dst.dlq == dst.dlq;
      assert dst.ledger.trimmed + multiset{} == dst.ledger.trimmed;
    } else {
      var c := b.(ledger := dst.ledger.(movedIn := dst.ledger.movedIn + Contents(src)));
      assert Placed(c) == Placed(b);
      PushDeadKeeps(c, src.dlq);
    }
  }

  lemma AbsorbKeepsInv(v: View, a: Actor, src: Box)
    requires Inv(v, a)
    ensures Inv(v.(box := Absorb(v.box, src)), a)
  {
    hide Absorb, Held, Sorted, Placed, Contents;
    AbsorbAdds(v.box, src);
    var w := v.(box := Absorb(v.box, src));
    assert Settled(w.box.ledger) == Settled(v.box.ledger);
    hide Settled;
    MoreOnBothSides(v.box.ledger.sent, v.box.ledger.movedIn, Placed(v.box), Held(v.claims, v.box.index), Settled(v.box.ledger), Contents(src));
    assert Conserved(w);
    hide Conserved, Inv;
    BoxKeepsInv(v, w, a);
  }

  lemma MoreOnBothSides(s: multiset<Task>, m: multiset<Task>, p: multiset<Task>, h: multiset<Task>, q: multiset<Task>, c: multiset<Task>)
    requires s + m == p + h + q
    ensures s + (m + c) == (p + c) + h + q
  {
    assert s + (m + c) == (s + m) + c;
  }

  lemma StoreStepKeepsInv(s: Store, e: StoreEvent)
    requires StoreInv(s) && StoreEnabled(s, e)
    ensures StoreInv(StoreStep(s, e))
  {
    hide Inv, Step, Absorb, Vacate;
    var t := StoreStep(s, e);
    forall b ensures Inv(ViewOf(t, b), b) {
      assert Inv(ViewOf(s, b), b);
      match e {
        case At(a, event) =>
          assert ViewOf(t, a) == Step(ViewOf(s, a), a, event);
          StepKeepsInv(ViewOf(s, a), a, event);
          if a != b { OtherMailboxKept(ViewOf(s, b), ViewOf(t, b), a, b); }
        case Move(from, to) =>
          if from != to && BoxOf(s, from).index == [] {
            if b == from { VacateKeepsInv(ViewOf(s, from), from); }
            else if b == to { AbsorbKeepsInv(ViewOf(s, to), to, BoxOf(s, from)); }
            else { assert ViewOf(t, b) == ViewOf(s, b); }
          }
      }
    }
  }

  lemma {:induction false} StoreRunKeepsInv(s: Store, es: seq<StoreEvent>)
    requires StoreInv(s) && ValidStoreRun(s, es)
    ensures StoreInv(StoreRun(s, es))
    decreases |es|
  {
    hide StoreInv, StoreStep;
    if es != [] {
      StoreStepKeepsInv(s, es[0]);
      StoreRunKeepsInv(StoreStep(s, es[0]), es[1..]);
    }
  }

  // ------------------------------------- conservation over all mailboxes at once

  /** The sum of some part of every listed actor's mailbox. */
  function Total(s: Store, actors: seq<Actor>, part: View -> multiset<Task>): multiset<Task> {
    if actors == [] then multiset{} else part(ViewOf(s, actors[0])) + Total(s, actors[1..], part)
  }

  /** Every actor that has a mailbox, once each. */
  ghost predicate Lists(actors: seq<Actor>, s: Store) {
    && (forall i, j :: 0 <= i < j < |actors| ==> actors[i] != actors[j])
    && (forall a :: a in s.boxes ==> a in actors)
  }

  function SentPart(v: View): multiset<Task> { v.box.ledger.sent }
  function MovedInPart(v: View): multiset<Task> { v.box.ledger.movedIn }
  function MovedOutPart(v: View): multiset<Task> { v.box.ledger.movedOut }

  function HandPart(v: View): multiset<Task> { Astray(v.box.ledger) }

  /** Inbox, claims, dead letters and what was trimmed off them, and what was delivered or purged. */
  function HerePart(v: View): multiset<Task> {
    Placed(v.box) + Held(v.claims, v.box.index) + GonePart(v)
  }

  function GonePart(v: View): multiset<Task> {
    var l := v.box.ledger;
    l.acked + l.received + l.purged
  }

  function BothParts(v: View): multiset<Task> {
    HerePart(v) + HandPart(v)
  }

  lemma {:induction false} TotalSame(s: Store, t: Store, actors: seq<Actor>, part: View -> multiset<Task>)
    requires forall a :: a in actors ==> part(ViewOf(t, a)) == part(ViewOf(s, a))
    ensures Total(t, actors, part) == Total(s, actors, part)
    decreases |actors|
  {
    if actors != [] {
      assert actors[0] in actors && forall a :: a in actors[1..] ==> a in actors;
      TotalSame(s, t, actors[1..], part);
    }
  }

  /** One actor's part grows by x, the others' stay. */
  lemma {:induction false} TotalGrows(s: Store, t: Store, actors: seq<Actor>, part: View -> multiset<Task>, a: Actor, x: multiset<Task>)
    requires a in actors && forall i, j :: 0 <= i < j < |actors| ==> actors[i] != actors[j]
    requires part(ViewOf(t, a)) == part(ViewOf(s, a)) + x
    requires forall b :: b in actors && b != a ==> part(ViewOf(t, b)) == part(ViewOf(s, b))
    ensures Total(t, actors, part) == Total(s, actors, part) + x
    decreases |actors|
  {
    var first, rest := actors[0], actors[1..];
    assert first in actors && forall b :: b in rest ==> b in actors;
    if first == a {
      assert forall b :: b in rest ==> b != a;
      TotalSame(s, t, rest, part);
    } else {
      assert actors == [first] + rest;
      assert a in rest;
      TotalGrows(s, t, rest, part, a, x);
    }
  }

  /** What has moved out of the mailboxes is what has moved into them. */
  ghost predicate Balanced(s: Store, actors: seq<Actor>) {
    Total(s, actors, MovedInPart) == Total(s, actors, MovedOutPart)
  }

  /** No script of one mailbox moves anything between mailboxes. */
  lemma StepMovesNothing(v: View, a: Actor, e: Event)
    requires Inv(v, a) && Enabled(v, a, e)
    ensures MovedInPart(Step(v, a, e)) == MovedInPart(v) && MovedOutPart(Step(v, a, e)) == MovedOutPart(v)
  {
    hide Held, Sorted;
    if e.RecoverExpired? {
      RecoverFirstKeepsLedger(v, Due(v.box.index, e.now));
    } else {
      hide RecoverFirst;
    }
  }

  /** A script of one actor touches that actor's mailbox only. */
  lemma ScriptIsLocal(s: Store, a: Actor, event: Event)
    requires StoreEnabled(s, At(a, event))
    ensures var t := StoreStep(s, At(a, event));
            && ViewOf(t, a) == Step(ViewOf(s, a), a, event)
            && forall b :: b != a ==> BoxOf(t, b) == BoxOf(s, b)
  {
    hide Step;
  }

  lemma MoveIsLocal(s: Store, from: Actor, to: Actor)
    requires from != to && BoxOf(s, from).index == []
    ensures var t := Migrate(s, from, to).0;
            && from in t.boxes && to in t.boxes
            && BoxOf(t, from) == Vacate(BoxOf(s, from)) && BoxOf(t, to) == Absorb(BoxOf(s, to), BoxOf(s, from))
            && forall b :: b != from && b != to ==> BoxOf(t, b) == BoxOf(s, b)
  {
    hide Absorb, Vacate;
  }

  lemma MoveBalances(s: Store, from: Actor, to: Actor, actors: seq<Actor>)
    requires Balanced(s, actors) && Lists(actors, Migrate(s, from, to).0)
    ensures Balanced(Migrate(s, from, to).0, actors)
  {
    var t := Migrate(s, from, to).0;
    if from != to && BoxOf(s, from).index == [] {
      var x := Contents(BoxOf(s, from));
      MoveIsLocal(s, from, to);
      AbsorbBooks(BoxOf(s, to), BoxOf(s, from));
      hide Absorb, Vacate, Contents, Migrate, BoxOf;
      TotalGrows(s, t, actors, MovedInPart, to, x);
      TotalGrows(s, t, actors, MovedOutPart, from, x);
    }
  }

  lemma AbsorbBooks(dst: Box, src: Box)
    ensures Absorb(dst, src).ledger.movedIn == dst.ledger.movedIn + Contents(src)
    ensures Absorb(dst, src).ledger.movedOut == dst.ledger.movedOut
    ensures Vacate(src).ledger.movedOut == src.ledger.movedOut + Contents(src)
    ensures Vacate(src).ledger.movedIn == src.ledger.movedIn
  {
  }

  lemma ScriptBalances(s: Store, a: Actor, event: Event, actors: seq<Actor>)
    requires StoreInv(s) && StoreEnabled(s, At(a, event)) && Balanced(s, actors)
    ensures Balanced(StoreStep(s, At(a, event)), actors)
  {
    assert Inv(ViewOf(s, a), a);
    ScriptIsLocal(s, a, event);
    StepMovesNothing(ViewOf(s, a), a, event);
    hide Step, StoreStep, StoreInv, Inv, BoxOf;
    var t := StoreStep(s, At(a, event));
    forall b ensures MovedInPart(ViewOf(t, b)) == MovedInPart(ViewOf(s, b)) && MovedOutPart(ViewOf(t, b)) == MovedOutPart(ViewOf(s, b)) {}
    hide MovedInPart, MovedOutPart;
    TotalSame(s, t, actors, MovedInPart);
    TotalSame(s, t, actors, MovedOutPart);
  }

  /** What a mailbox has ever given away only grows. */
  lemma {:induction false} MovedOutGrows(s: Store, es: seq<StoreEvent>, a: Actor)
    requires StoreInv(s) && ValidStoreRun(s, es)
    ensures BoxOf(s, a).ledger.movedOut <= BoxOf(StoreRun(s, es), a).ledger.movedOut
    decreases |es|
  {
    if es != [] {
      var e, t := es[0], StoreStep(s, es[0]);
      if e.Move? {
        if e.from != e.to && BoxOf(s, e.from).index == [] {
          MoveIsLocal(s, e.from, e.to);
          AbsorbBooks(BoxOf(s, e.to), BoxOf(s, e.from));
        }
      } else {
        assert Inv(ViewOf(s, e.actor), e.actor);
        ScriptIsLocal(s, e.actor, e.event);
        StepMovesNothing(ViewOf(s, e.actor), e.actor, e.event);
      }
      StoreStepKeepsInv(s, e);
      hide StoreInv, Inv, Step, Migrate, Absorb, Vacate, Contents;
      MovedOutGrows(t, es[1..], a);
    }
  }

  lemma StepBalances(s: Store, e: StoreEvent, actors: seq<Actor>)
    requires StoreInv(s) && StoreEnabled(s, e) && Balanced(s, actors) && Lists(actors, StoreStep(s, e))
    ensures Balanced(StoreStep(s, e), actors)
  {
    hide Balanced, StoreInv, Step, Lists, Migrate;
    match e
    case Move(from, to) => MoveBalances(s, from, to, actors);
    case At(a, event) => ScriptBalances(s, a, event, actors);
  }

  lemma StepAddsMailboxes(s: Store, e: StoreEvent)
    requires StoreEnabled(s, e)
    ensures s.boxes.Keys <= StoreStep(s, e).boxes.Keys
  {
    hide Step, Absorb, Vacate;
  }

  lemma {:induction false} RunAddsMailboxes(s: Store, es: seq<StoreEvent>)
    requires ValidStoreRun(s, es)
    ensures s.boxes.Keys <= StoreRun(s, es).boxes.Keys
    decreases |es|
  {
    hide StoreStep;
    if es != [] {
      StepAddsMailboxes(s, es[0]);
      RunAddsMailboxes(StoreStep(s, es[0]), es[1..]);
    }
  }

  lemma {:induction false} RunBalances(s: Store, es: seq<StoreEvent>, actors: seq<Actor>)
    requires StoreInv(s) && ValidStoreRun(s, es) && Balanced(s, actors) && Lists(actors, StoreRun(s, es))
    ensures Balanced(StoreRun(s, es), actors)
    decreases |es|
  {
    hide StoreInv, StoreStep, Balanced;
    if es != [] {
      RunAddsMailboxes(StoreStep(s, es[0]), es[1..]);
      StoreStepKeepsInv(s, es[0]);
      StepBalances(s, es[0], actors);
      RunBalances(StoreStep(s, es[0]), es[1..], actors);
    }
  }

  lemma {:induction false} BooksOfAll(s: Store, actors: seq<Actor>)
    requires StoreInv(s)
    ensures Total(s, actors, SentPart) + Total(s, actors, MovedInPart)
         == Total(s, actors, BothParts) + Total(s, actors, MovedOutPart)
    decreases |actors|
  {
    if actors != [] {
      BooksOfAll(s, actors[1..]);
      var v := ViewOf(s, actors[0]);
      assert Inv(v, actors[0]);
      BooksOfOne(v);
      hide SentPart, MovedInPart, BothParts, MovedOutPart, StoreInv, Inv;
      AddBooks(SentPart(v), MovedInPart(v), BothParts(v), MovedOutPart(v),
               Total(s, actors[1..], SentPart), Total(s, actors[1..], MovedInPart),
               Total(s, actors[1..], BothParts), Total(s, actors[1..], MovedOutPart));
    }
  }

  lemma BooksOfOne(v: View)
    requires Conserved(v)
    ensures SentPart(v) + MovedInPart(v) == BothParts(v) + MovedOutPart(v)
  {
    var l := v.box.ledger;
    assert Settled(l) == GonePart(v) + l.movedOut + Astray(l);
    hide Placed, Held, Settled, GonePart, Astray;
  }

  lemma {:induction false} TotalSplits(s: Store, actors: seq<Actor>)
    ensures Total(s, actors, BothParts) == Total(s, actors, HerePart) + Total(s, actors, HandPart)
    decreases |actors|
  {
    hide HerePart, HandPart;
    if actors != [] { TotalSplits(s, actors[1..]); }
  }

  lemma AddBooks<T>(a: multiset<T>, b: multiset<T>, c: multiset<T>, d: multiset<T>,
                    a': multiset<T>, b': multiset<T>, c': multiset<T>, d': multiset<T>)
    requires a + b == c + d && a' + b' == c' + d'
    ensures (a + a') + (b + b') == (c + c') + (d + d')
  {
    assert (a + a') + (b + b') == (a + b) + (a' + b');
    assert (c + c') + (d + d') == (c + d) + (c' + d');
  }

  lemma Cancel<T>(a: multiset<T>, x: multiset<T>, c: multiset<T>)
    requires a + x == c + x
    ensures a == c
  {
    assert a == (a + x) - x && c == (c + x) - x;
  }

  /**
   * Conservation over every run of sends, pops, returns, parks, claims,
   * acknowledgements, renewals, recoveries, requeues, unregistrations and
   * migrations of any number of actors: over all mailboxes together, what was
   * ever sent is what is in an inbox, an outstanding claim or a dead-letter
   * queue, or was trimmed, acknowledged, received or purged, or is in the hand
   * of a receive under way. Nothing else is dropped or doubled on the way, by
   * a migration either.
   */
  lemma MessagesAreConserved(s: Store, es: seq<StoreEvent>, actors: seq<Actor>)
    requires StoreInv(s) && ValidStoreRun(s, es) && Balanced(s, actors) && Lists(actors, StoreRun(s, es))
    ensures var t := StoreRun(s, es);
            && StoreInv(t) && Balanced(t, actors)
            && Total(t, actors, SentPart) == Total(t, actors, HerePart) + Total(t, actors, HandPart)
  {
    StoreRunKeepsInv(s, es);
    RunBalances(s, es, actors);
    var t := StoreRun(s, es);
    BooksOfAll(t, actors);
    Cancel(Total(t, actors, SentPart), Total(t, actors, MovedOutPart), Total(t, actors, BothParts));
    TotalSplits(t, actors);
  }

  /** A store without mailboxes is where every run may start. */
  lemma {:induction false} EmptyStoreIsBalanced(actors: seq<Actor>)
    ensures var s := Store(map[], map[]);
            StoreInv(s) && Balanced(s, actors)
    decreases |actors|
  {
    if actors != [] { EmptyStoreIsBalanced(actors[1..]); }
  }

  // -------------------------------------------------- what receives can lose

  ghost predicate Ends(es: seq<StoreEvent>, a: Actor, k: nat) {
    At(a, Returned(k)) in es || At(a, Parked(k)) in es
  }

  /** Receives are numbered upwards. */
  lemma {:induction false} LaterPopsAreNew(s: Store, es: seq<StoreEvent>, a: Actor, k: nat)
    requires StoreInv(s) && ValidStoreRun(s, es) && At(a, PopOne(k)) in es
    ensures k >= BoxOf(s, a).ledger.receives
    decreases |es|
  {
    if es[0] != At(a, PopOne(k)) {
      StoreStepKeepsInv(s, es[0]);
      StoreStepMovesHands(s, es[0], a, k);
      hide StoreInv, StoreStep;
      LaterPopsAreNew(StoreStep(s, es[0]), es[1..], a, k);
    }
  }

  lemma StoreStepMovesHands(s: Store, e: StoreEvent, a: Actor, k: nat)
    requires StoreInv(s) && StoreEnabled(s, e)
    ensures UnderWay(ViewOf(StoreStep(s, e), a), k) <==>
              (UnderWay(ViewOf(s, a), k) || e == At(a, PopOne(k))) && e != At(a, Returned(k)) && e != At(a, Parked(k))
    ensures BoxOf(s, a).ledger.receives <= BoxOf(StoreStep(s, e), a).ledger.receives
    ensures e == At(a, PopOne(k)) ==> k < BoxOf(StoreStep(s, e), a).ledger.receives
    ensures UnderWay(ViewOf(s, a), k) ==> k < BoxOf(s, a).ledger.receives
  {
    assert Inv(ViewOf(s, a), a);
    HandsAreNumbered(ViewOf(s, a), a, k);
    match e
    case Move(from, to) => MoveKeepsHands(s, from, to, a);
    case At(b, event) =>
      ScriptIsLocal(s, b, event);
      if b == a { StepMovesHands(ViewOf(s, a), a, event, k); }
      hide Step, StoreStep, StoreInv, Inv, BoxOf;
  }

  lemma MoveKeepsHands(s: Store, from: Actor, to: Actor, a: Actor)
    ensures BoxOf(Migrate(s, from, to).0, a).ledger.hands == BoxOf(s, a).ledger.hands
    ensures BoxOf(Migrate(s, from, to).0, a).ledger.receives == BoxOf(s, a).ledger.receives
  {
    if from != to && BoxOf(s, from).index == [] {
      MoveIsLocal(s, from, to);
      AbsorbKeepsHands(BoxOf(s, to), BoxOf(s, from));
      hide Migrate, BoxOf, Absorb, Vacate;
    }
  }

  lemma AbsorbKeepsHands(dst: Box, src: Box)
    ensures Absorb(dst, src).ledger.hands == dst.ledger.hands && Absorb(dst, src).ledger.receives == dst.ledger.receives
    ensures Vacate(src).ledger.hands == src.ledger.hands && Vacate(src).ledger.receives == src.ledger.receives
  {
  }

  /** Over any run, a receive is under way exactly if it was, or popped, and has neither returned nor parked. */
  lemma {:induction false} UnderWayIff(s: Store, es: seq<StoreEvent>, a: Actor, k: nat)
    requires StoreInv(s) && ValidStoreRun(s, es)
    ensures UnderWay(ViewOf(StoreRun(s, es), a), k) <==>
              (UnderWay(ViewOf(s, a), k) || At(a, PopOne(k)) in es) && !Ends(es, a, k)
    decreases |es|
  {
    if es != [] {
      var e, t, rest := es[0], StoreStep(s, es[0]), es[1..];
      StoreStepKeepsInv(s, e);
      StoreStepMovesHands(s, e, a, k);
      UnderWayIff(t, rest, a, k);
      if At(a, PopOne(k)) in rest { LaterPopsAreNew(t, rest, a, k); }
      EndsNeedUnderWay(s, e, a, k);
      FirstOrLater(es, a, k);
      hide StoreInv, StoreStep, UnderWay, ViewOf, BoxOf, Ends;
    }
  }

  lemma FirstOrLater(es: seq<StoreEvent>, a: Actor, k: nat)
    requires es != []
    ensures Ends(es, a, k) <==> es[0] == At(a, Returned(k)) || es[0] == At(a, Parked(k)) || Ends(es[1..], a, k)
    ensures At(a, PopOne(k)) in es <==> es[0] == At(a, PopOne(k)) || At(a, PopOne(k)) in es[1..]
  {
    assert es == [es[0]] + es[1..];
  }

  /** Only a receive that has a payload ends. */
  lemma EndsNeedUnderWay(s: Store, e: StoreEvent, a: Actor, k: nat)
    requires StoreEnabled(s, e)
    ensures e == At(a, Returned(k)) || e == At(a, Parked(k)) ==> UnderWay(ViewOf(s, a), k)
  {
  }

  /** No receive of any listed actor is under way. */
  ghost predicate NoneUnderWay(s: Store, actors: seq<Actor>) {
    forall a :: a in actors ==> BoxOf(s, a).ledger.hands == []
  }

  lemma {:induction false} NothingInHandIff(s: Store, actors: seq<Actor>)
    ensures Total(s, actors, HandPart) == multiset{} <==> NoneUnderWay(s, actors)
    decreases |actors|
  {
    if actors != [] {
      NothingInHandIff(s, actors[1..]);
      var h := BoxOf(s, actors[0]).ledger.hands;
      assert actors == [actors[0]] + actors[1..];
      if h != [] {
        assert h[0].task in HandPart(ViewOf(s, actors[0]));
        assert h[0].task in Total(s, actors, HandPart);
      }
    }
  }

  lemma HandsEmptyIff(s: Store, a: Actor)
    ensures BoxOf(s, a).ledger.hands == [] <==> forall k :: !UnderWay(ViewOf(s, a), k)
  {
    var h := BoxOf(s, a).ledger.hands;
    if h != [] { assert UnderWay(ViewOf(s, a), h[0].receive); }
  }

  /** Every receive that popped a payload has returned or parked it. */
  ghost predicate EveryReceiveEnds(es: seq<StoreEvent>, actors: seq<Actor>) {
    forall a, k :: a in actors && At(a, PopOne(k)) in es ==> Ends(es, a, k)
  }

  /**
   * From a store with no receive under way, over every run: every payload ever
   * sent is still in some inbox, claim or dead-letter queue, or was trimmed,
   * acknowledged, received or purged, if and only if every receive that popped
   * a payload, decodable or not, went on to return or park it. One that
   * throws, dies or loses a reply in between takes its payload with it.
   */
  lemma NothingIsMissingIffEveryReceiveEnds(s: Store, es: seq<StoreEvent>, actors: seq<Actor>)
    requires StoreInv(s) && ValidStoreRun(s, es) && Balanced(s, actors) && Lists(actors, StoreRun(s, es))
    requires NoneUnderWay(s, actors)
    ensures var t := StoreRun(s, es);
            && Total(t, actors, HerePart) <= Total(t, actors, SentPart)
            && (Total(t, actors, HerePart) == Total(t, actors, SentPart) <==> EveryReceiveEnds(es, actors))
  {
    var t := StoreRun(s, es);
    MessagesAreConserved(s, es, actors);
    NothingInHandIff(t, actors);
    hide StoreRun, StoreInv, Balanced, Total, Lists, ValidStoreRun, UnderWay;
    forall a | a in actors
      ensures BoxOf(t, a).ledger.hands == [] <==> forall k :: At(a, PopOne(k)) in es ==> Ends(es, a, k)
    {
      HandsEmptyIff(s, a);
      HandsEmptyIff(t, a);
      forall k ensures UnderWay(ViewOf(t, a), k) <==> At(a, PopOne(k)) in es && !Ends(es, a, k) {
        if UnderWay(ViewOf(t, a), k) || At(a, PopOne(k)) in es { UnderWayIff(s, es, a, k); }
      }
    }
  }

  /** A receive that only pops loses the message, whatever it is: one sent, one popped, none anywhere. */
  lemma UnendedReceiveLosesMessage(a: Actor, t: Task)
    ensures var s := Store(map[], map[]);
            var es := [At(a, SendTo(t, 1)), At(a, PopOne(0))];
            && ValidStoreRun(s, es)
            && var end := StoreRun(s, es);
               Total(end, [a], SentPart) == multiset{t} && Total(end, [a], HerePart) == multiset{}
  {
    var s := Store(map[], map[]);
    var es := [At(a, SendTo(t, 1)), At(a, PopOne(0))];
    var s1 := StoreStep(s, es[0]);
    assert ViewOf(s1, a) == Send(ViewOf(s, a), t, 1) && BoxOf(s1, a).inbox == [t];
    var s2 := StoreStep(s1, es[1]);
    assert es[1..] == [es[1]] && es[1..][1..] == [];
    assert ValidStoreRun(s2, []) && ValidStoreRun(s1, es[1..]);
    assert StoreRun(s2, []) == s2 && StoreRun(s1, es[1..]) == s2;
    var b := BoxOf(s2, a);
    assert b.inbox == [] && b.dlq == [] && b.index == [] && b.ledger.sent == multiset{t};
    assert [a][1..] == [];
    assert SentPart(ViewOf(s2, a)) == multiset{t} && HerePart(ViewOf(s2, a)) == multiset{};
  }

  // ----------------------------------------------------- recovery, across names

  /** What a run does to message m under actor a's name. */
  function TallyAt(s: Store, es: seq<StoreEvent>, a: Actor, m: MessageId): Tally
    requires ValidStoreRun(s, es)
    decreases |es|
  {
    if es == [] then Tally(0, 0)
    else Add(if es[0].At? && es[0].actor == a then TallyEvent(ViewOf(s, a), es[0].event, m) else Tally(0, 0),
             TallyAt(StoreStep(s, es[0]), es[1..], a, m))
  }

  /** Actor a's counter of m is never reset; migrations may happen. */
  ghost predicate NeverResetsAt(s: Store, es: seq<StoreEvent>, a: Actor, m: MessageId)
    requires ValidStoreRun(s, es)
    decreases |es|
  {
    es == [] ||
    (!(es[0].At? && es[0].actor == a && Resets(ViewOf(s, a), a, es[0].event, m))
     && NeverResetsAt(StoreStep(s, es[0]), es[1..], a, m))
  }

  lemma StoreEventTally(s: Store, e: StoreEvent, a: Actor, m: MessageId)
    requires StoreInv(s) && StoreEnabled(s, e)
    requires !(e.At? && e.actor == a && Resets(ViewOf(s, a), a, e.event, m))
    ensures var t := if e.At? && e.actor == a then TallyEvent(ViewOf(s, a), e.event, m) else Tally(0, 0);
            Counter(BoxOf(StoreStep(s, e), a), m) + RECOVER_CAP * t.dead == Counter(BoxOf(s, a), m) + t.returned
  {
    assert Inv(ViewOf(s, a), a);
    match e
    case Move(from, to) => MoveKeepsCounters(s, from, to, a);
    case At(b, event) =>
      ScriptIsLocal(s, b, event);
      hide Step, StoreStep, StoreInv, Inv, BoxOf, TallyEvent, Resets;
      if b == a { EventTally(ViewOf(s, a), a, event, m); }
  }

  lemma MoveKeepsCounters(s: Store, from: Actor, to: Actor, a: Actor)
    ensures BoxOf(Migrate(s, from, to).0, a).counters == BoxOf(s, a).counters
  {
  }

  /**
   * Over any run of all mailboxes, migrations included, in which m's counter
   * under a name is not reset, that counter is exactly the recoveries that
   * returned m there less RECOVER_CAP for each that quarantined it. So under
   * one name m returns at most RECOVER_CAP times before its first quarantine,
   * and each return brings that quarantine one step closer.
   */
  lemma {:induction false} RecoveryIsBounded(s: Store, es: seq<StoreEvent>, a: Actor, m: MessageId)
    requires StoreInv(s) && ValidStoreRun(s, es) && NeverResetsAt(s, es, a, m)
    ensures var t := TallyAt(s, es, a, m);
            && Counter(BoxOf(StoreRun(s, es), a), m) + RECOVER_CAP * t.dead == Counter(BoxOf(s, a), m) + t.returned
            && t.returned <= RECOVER_CAP * (t.dead + 1) - Counter(BoxOf(s, a), m)
    decreases |es|
  {
    if es == [] {
      assert Inv(ViewOf(s, a), a);
    } else {
      StoreStepKeepsInv(s, es[0]);
      StoreEventTally(s, es[0], a, m);
      hide StoreInv, StoreStep, Counter, TallyEvent, Resets;
      RecoveryIsBounded(StoreStep(s, es[0]), es[1..], a, m);
    }
  }

  function TallyAll(s: Store, es: seq<StoreEvent>, actors: seq<Actor>, m: MessageId): Tally
    requires ValidStoreRun(s, es)
  {
    if actors == [] then Tally(0, 0) else Add(TallyAt(s, es, actors[0], m), TallyAll(s, es, actors[1..], m))
  }

  /** Over n names a message returns at most RECOVER_CAP times for each name and each quarantine. */
  lemma {:induction false} RecoveryIsBoundedOverAllNames(s: Store, es: seq<StoreEvent>, actors: seq<Actor>, m: MessageId)
    requires StoreInv(s) && ValidStoreRun(s, es)
    requires forall a :: a in actors ==> NeverResetsAt(s, es, a, m)
    ensures var t := TallyAll(s, es, actors, m); t.returned <= RECOVER_CAP * (t.dead + |actors|)
    decreases |actors|
  {
    if actors != [] {
      assert actors[0] in actors && forall a :: a in actors[1..] ==> a in actors;
      RecoveryIsBounded(s, es, actors[0], m);
      RecoveryIsBoundedOverAllNames(s, es, actors[1..], m);
    }
  }

  /**
   * A rename restarts the count: counters stay with the old name. The same
   * task that recovery would quarantine before the transfer goes back to the
   * inbox after it.
   */
  lemma RenameRestartsTheCount(s: Store, from: Actor, to: Actor, t: Task)
    requires CountedId(t).Some? && from != to && Migrate(s, from, to).1.Some?
    requires Counter(BoxOf(s, from), CountedId(t).value) >= RECOVER_CAP > Counter(BoxOf(s, to), CountedId(t).value)
    ensures !Returns(BoxOf(s, from), t) && Returns(BoxOf(Migrate(s, from, to).0, to), t)
  {
    MoveKeepsCounters(s, from, to, to);
  }

  /** What a receiver has in hand at a migration is parked under the old name. */
  lemma HandIsParkedUnderTheOldName(s: Store, from: Actor, to: Actor, k: nat)
    requires from != to && Migrate(s, from, to).1.Some? && HandTask(BoxOf(s, from), k).Some?
    ensures var moved := Migrate(s, from, to).0;
            Park(ViewOf(moved, from), k).box.dlq == [HandTask(BoxOf(s, from), k).value]
  {
    MoveKeepsHands(s, from, to, from);
  }

  /**
   * A migration is all or nothing. Refused exactly while the source has an
   * outstanding claim, it changes nothing; otherwise the whole inbox follows
   * the destination's in order, the dead letters lead the destination's up to
   * the bound, the source is left empty and no claim of it exists anywhere.
   */
  lemma MigrationMovesAllOrNothing(s: Store, from: Actor, to: Actor)
    requires StoreInv(s) && from != to
    ensures var (t, moved) := Migrate(s, from, to);
            var src, dst, left, got := BoxOf(s, from), BoxOf(s, to), BoxOf(t, from), BoxOf(t, to);
            && t.claims == s.claims
            && (forall a :: a != from && a != to ==> BoxOf(t, a) == BoxOf(s, a))
            && (moved == None <==> exists id :: id in s.claims && s.claims[id].actor == from)
            && (moved == None ==> t == s)
            && (moved != None ==>
                  && moved == Some(|src.inbox|)
                  && left.inbox == [] && left.dlq == [] && left.counters == src.counters
                  && got.inbox == dst.inbox + src.inbox && got.index == dst.index
                  && got.dlq == Trim(src.dlq + dst.dlq) && got.counters == dst.counters
                  && Placed(got) == Placed(dst) + Contents(src))
  {
    hide Absorb, Placed, Held, Sorted;
    var src, dst, t := BoxOf(s, from), BoxOf(s, to), Migrate(s, from, to).0;
    assert Inv(ViewOf(s, from), from) && Inv(ViewOf(s, to), to);
    if src.index != [] {
      var id := src.index[0].id;
      assert src.index[0] in src.index && id in s.claims && s.claims[id].actor == from;
    } else {
      AbsorbAdds(dst, src);
    }
  }
}
