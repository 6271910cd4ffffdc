/**
 * Durable task claims (src/core/task-claim-store.ts and the claims-*.lua and
 * migrate-messages.lua scripts it runs). Every script is one atomic step.
 * Times are integer milliseconds.
 */
module Claims {
  import opened Options
  import H = Receives

  type Actor = string
  type Session = string
  type ClaimId = nat
  type MessageId = string

  const RECOVER_CAP: nat := 5
  const DLQ_MAX_LENGTH: nat := 1000
  const CLAIM_LIFETIME_BUDGET_SECONDS: nat := 86400

  /** A raw inbox payload: a JSON envelope, perhaps with an id, or undecodable bytes. */
  datatype Task = Envelope(id: Option<MessageId>, body: string) | Undecodable(body: string)

  /** The id recovery counters are kept under; legacy payloads have none. */
  function CountedId(t: Task): Option<MessageId> {
    if t.Envelope? && t.id.Some? && t.id.value != "" then t.id else None
  }

  datatype Claim = Claim(
    actor: Actor, session: Session, claimedAt: int, expiresAt: int, tasks: seq<Task>)

  /** A member of an actor's claims index, a Redis sorted set. */
  datatype Entry = Entry(score: int, id: ClaimId)

  /** Where every payload that ever entered an actor's mailbox has left it, and the receives under way, numbered. */
  datatype Ledger = Ledger(
    sent: multiset<Task>, movedIn: multiset<Task>,
    acked: multiset<Task>, received: multiset<Task>, trimmed: multiset<Task>,
    purged: multiset<Task>, movedOut: multiset<Task>,
    hands: seq<H.InHand<Task>>, receives: nat)

  /** One actor's keys, with its ledger. */
  datatype Box = Box(
    inbox: seq<Task>, index: seq<Entry>, dlq: seq<Task>, counters: map<MessageId, nat>, ledger: Ledger)

  function EmptyBox(): Box {
    var none: multiset<Task> := multiset{};
    Box([], [], [], map[], Ledger(none, none, none, none, none, none, none, [], 0))
  }

  /** The claims hash is shared by all actors; v is what one actor's scripts touch. */
  datatype View = View(claims: map<ClaimId, Claim>, box: Box)

  // ------------------------------------------------------------ sorted sets

  predicate Before(e: Entry, f: Entry) {
    e.score < f.score || (e.score == f.score && e.id < f.id)
  }

  ghost predicate Sorted(s: seq<Entry>) {
    forall i, j :: 0 <= i < j < |s| ==> Before(s[i], s[j])
  }

  function Insert(s: seq<Entry>, e: Entry): seq<Entry> {
    if s == [] || Before(e, s[0]) then [e] + s else [s[0]] + Insert(s[1..], e)
  }

  function Without(s: seq<Entry>, id: ClaimId): seq<Entry> {
    if s == [] then [] else if s[0].id == id then Without(s[1..], id) else [s[0]] + Without(s[1..], id)
  }

  /** How many members ZRANGEBYSCORE -inf now-1 returns, all at the front. */
  function Due(s: seq<Entry>, now: int): (n: nat)
    ensures n <= |s|
  {
    if s != [] && s[0].score < now then 1 + Due(s[1..], now) else 0
  }

  // ---------------------------------------------------------------- scripts

  function Trim(dlq: seq<Task>): seq<Task> {
    if |dlq| <= DLQ_MAX_LENGTH then dlq else dlq[..DLQ_MAX_LENGTH]
  }

  function Trimmed(dlq: seq<Task>): seq<Task> {
    if |dlq| <= DLQ_MAX_LENGTH then [] else dlq[DLQ_MAX_LENGTH..]
  }

  function PushDead(b: Box, tasks: seq<Task>): Box {
    var all := tasks + b.dlq;
    b.(dlq := Trim(all), ledger := b.ledger.(trimmed := b.ledger.trimmed + multiset(Trimmed(all))))
  }

  function Counter(b: Box, m: MessageId): nat {
    if m in b.counters then b.counters[m] else 0
  }

  /** Recovery of one task: back to the inbox, or quarantined past the cap. */
  function RecoverTask(b: Box, t: Task): Box {
    match CountedId(t)
    case None => b.(inbox := b.inbox + [t])
    case Some(m) =>
      var count := Counter(b, m) + 1;
      if count > RECOVER_CAP then PushDead(b, [t]).(counters := b.counters - {m})
      else b.(inbox := b.inbox + [t], counters := b.counters[m := count])
  }

  function RecoverTasks(b: Box, tasks: seq<Task>): Box
    decreases |tasks|
  {
    if tasks == [] then b else RecoverTasks(RecoverTask(b, tasks[0]), tasks[1..])
  }

  function TasksOf(claims: map<ClaimId, Claim>, id: ClaimId): seq<Task> {
    if id in claims then claims[id].tasks else []
  }

  /** Recovery of the n claims at the front of the index. */
  function RecoverFirst(v: View, n: nat): View
    decreases n
  {
    if n == 0 || v.box.index == [] then v else
    var id := v.box.index[0].id;
    RecoverFirst(View(v.claims - {id}, RecoverTasks(v.box.(index := v.box.index[1..]), TasksOf(v.claims, id))), n - 1)
  }

  /** claims-recover.lua; blocked when a destination key holds the wrong type. */
  function Recover(v: View, now: int, blocked: bool): View {
    if blocked then v else RecoverFirst(v, Due(v.box.index, now))
  }

  datatype ClaimRequest = ClaimRequest(
    actor: Actor, session: Session, maxBatch: int, ttlSeconds: int,
    maxConcurrent: Option<int>, now: int, id: ClaimId, blocked: bool)

  datatype ClaimResult = InvalidRequest | StoreCorrupt | LimitReached | EmptyInbox | Claimed(tasks: seq<Task>)

  predicate Blank(s: string) {
    forall c :: c in s ==> c in " \t\r\n"
  }

  predicate ValidClaimRequest(r: ClaimRequest) {
    && !Blank(r.actor) && !Blank(r.session)
    && 1 <= r.maxBatch <= 16 && 1 <= r.ttlSeconds <= 3600
    && (r.maxConcurrent.Some? ==> r.maxConcurrent.value >= 1)
  }

  function Min(a: int, b: int): int {
    if a <= b then a else b
  }

  /** claims-batch-claim.lua, after recovery. */
  function BatchClaim(v: View, r: ClaimRequest): (View, ClaimResult)
    requires ValidClaimRequest(r)
  {
    if r.maxConcurrent.Some? && |v.box.index| >= r.maxConcurrent.value then (v, LimitReached)
    else if v.box.inbox == [] then (v, EmptyInbox)
    else
      var n := Min(r.maxBatch, |v.box.inbox|);
      var expires := r.now + r.ttlSeconds * 1000;
      var tasks := v.box.inbox[..n];
      (View(v.claims[r.id := Claim(r.actor, r.session, r.now, expires, tasks)],
            v.box.(inbox := v.box.inbox[n..], index := Insert(v.box.index, Entry(expires, r.id)))),
       Claimed(tasks))
  }

  function ClaimTasks(v: View, r: ClaimRequest): (View, ClaimResult) {
    if !ValidClaimRequest(r) then (v, InvalidRequest)
    else if r.blocked && Due(v.box.index, r.now) > 0 then (v, StoreCorrupt)
    else BatchClaim(Recover(v, r.now, r.blocked), r)
  }

  datatype AckResult = UnknownClaim | NotClaimOwner | Acknowledged(count: nat)

  function ClearCounters(counters: map<MessageId, nat>, tasks: seq<Task>): map<MessageId, nat> {
    if tasks == [] then counters else
    ClearCounters(if CountedId(tasks[0]).Some? then counters - {CountedId(tasks[0]).value} else counters, tasks[1..])
  }

  predicate Owns(v: View, actor: Actor, session: Session, id: ClaimId) {
    id in v.claims && v.claims[id].actor == actor && v.claims[id].session == session
  }

  /** claims-ack.lua. */
  function Acknowledge(v: View, actor: Actor, session: Session, id: ClaimId): (View, AckResult) {
    if id !in v.claims then (v, UnknownClaim)
    else if !Owns(v, actor, session, id) then (v, NotClaimOwner)
    else
      var tasks := v.claims[id].tasks;
      (View(v.claims - {id},
            v.box.(index := Without(v.box.index, id), counters := ClearCounters(v.box.counters, tasks),
                   ledger := v.box.ledger.(acked := v.box.ledger.acked + multiset(tasks)))),
       Acknowledged(|tasks|))
  }

  datatype RenewResult =
    InvalidRenewal | NoSuchClaim | ForeignClaim | ClaimExpired | BudgetExceeded | Renewed(expiresAt: int)

  /** claims-renew.lua under the fixed lifetime budget. */
  function Renew(v: View, actor: Actor, session: Session, id: ClaimId, ttlSeconds: int, now: int): (View, RenewResult) {
    if Blank(actor) || Blank(session) || ttlSeconds < 1 || ttlSeconds > 3600 then (v, InvalidRenewal)
    else if id !in v.claims then (v, NoSuchClaim)
    else if !Owns(v, actor, session, id) then (v, ForeignClaim)
    else
      var c := v.claims[id];
      if c.expiresAt <= now then (v, ClaimExpired)
      else
        var expires := Min(now + ttlSeconds * 1000, c.claimedAt + CLAIM_LIFETIME_BUDGET_SECONDS * 1000);
        if expires <= now then (v, BudgetExceeded)
        else (View(v.claims[id := c.(expiresAt := expires)],
                   v.box.(index := Insert(Without(v.box.index, id), Entry(expires, id)))),
              Renewed(expires))
  }

  /** The first entry, newest first, whose envelope carries the id. */
  function FindDead(dlq: seq<Task>, m: MessageId): (n: nat)
    ensures n <= |dlq|
    ensures n < |dlq| ==> dlq[n].Envelope? && dlq[n].id == Some(m)
  {
    if dlq == [] || (dlq[0].Envelope? && dlq[0].id == Some(m)) then 0 else 1 + FindDead(dlq[1..], m)
  }

  /** claims-requeue.lua. */
  function Requeue(v: View, m: MessageId): View {
    var n := FindDead(v.box.dlq, m);
    if n == |v.box.dlq| then v else
    v.(box := v.box.(inbox := v.box.inbox + [v.box.dlq[n]],
                     dlq := v.box.dlq[..n] + v.box.dlq[n + 1..],
                     counters := v.box.counters - {m}))
  }

  /** bounded-push.lua. */
  function Send(v: View, t: Task, bound: nat): View {
    if |v.box.inbox| >= bound then v else
    v.(box := v.box.(inbox := v.box.inbox + [t], ledger := v.box.ledger.(sent := v.box.ledger.sent + multiset{t})))
  }

  // receive() is three calls: a destructive pop, and then the report of the
  // depth before the payload is returned, or the parking of one that cannot
  // be decoded. A receive that throws, dies or loses a reply in between takes
  // no further step; only its caller's hand held the payload.

  /** BLPOP by the next receive. */
  function Pop(v: View): View {
    if v.box.inbox == [] then v else
    var l := v.box.ledger;
    v.(box := v.box.(inbox := v.box.inbox[1..],
                     ledger := l.(hands := l.hands + [H.InHand(l.receives, v.box.inbox[0])], receives := l.receives + 1)))
  }

  /** The payload receive k has in hand, if it is under way. */
  function HandTask(b: Box, k: nat): Option<Task> {
    H.TaskOf(b.ledger.hands, k)
  }

  function OutOfHand(b: Box, k: nat): Box {
    b.(ledger := b.ledger.(hands := H.Drop(b.ledger.hands, k)))
  }

  /** The receive reports the depth and returns its payload. */
  function Return(v: View, k: nat): View {
    if HandTask(v.box, k) == None then v else
    var b := OutOfHand(v.box, k);
    v.(box := b.(ledger := b.ledger.(received := b.ledger.received + multiset{HandTask(v.box, k).value})))
  }

  /** The receive parks its payload in the dead-letter queue. */
  function Park(v: View, k: nat): View {
    if HandTask(v.box, k) == None then v
    else v.(box := PushDead(OutOfHand(v.box, k), [HandTask(v.box, k).value]))
  }

  /** The tasks of every claim in an index. */
  function Held(claims: map<ClaimId, Claim>, index: seq<Entry>): multiset<Task> {
    if index == [] then multiset{} else multiset(TasksOf(claims, index[0].id)) + Held(claims, index[1..])
  }

  function Ids(index: seq<Entry>): set<ClaimId> {
    set e | e in index :: e.id
  }

  /** Counters claims-purge.lua collects: those of claimed and dead-lettered tasks. */
  function TrackedIds(v: View): set<MessageId> {
    (set id, t | id in Ids(v.box.index) && t in TasksOf(v.claims, id) && CountedId(t).Some? :: CountedId(t).value)
    + (set t | t in v.box.dlq && CountedId(t).Some? :: CountedId(t).value)
  }

  /** Unregistration: claims-purge.lua and the deletion of the inbox, in one script. */
  function Purge(v: View): View {
    var b := v.box;
    View(v.claims - Ids(b.index),
         Box([], [], [], b.counters - TrackedIds(v),
             b.ledger.(purged := b.ledger.purged + multiset(b.inbox) + Held(v.claims, b.index) + multiset(b.dlq))))
  }

  // -------------------------------------------------------------- invariant

  /** Hash and index agree on members and on expiry; the index is in score order. */
  ghost predicate Agree(v: View, a: Actor) {
    && Sorted(v.box.index)
    && (forall e :: e in v.box.index ==>
          e.id in v.claims && v.claims[e.id].actor == a && v.claims[e.id].expiresAt == e.score)
    && (forall id :: id in v.claims && v.claims[id].actor == a ==> Entry(v.claims[id].expiresAt, id) in v.box.index)
  }

  ghost predicate WithinBudget(v: View, a: Actor) {
    forall id :: id in v.claims && v.claims[id].actor == a ==>
      v.claims[id].expiresAt <= v.claims[id].claimedAt + CLAIM_LIFETIME_BUDGET_SECONDS * 1000
  }

  ghost predicate Bounded(b: Box) {
    && (forall m :: m in b.counters ==> 1 <= b.counters[m] <= RECOVER_CAP)
    && |b.dlq| <= DLQ_MAX_LENGTH
    && HandsInOrder(b.ledger)
  }

  /** Each receive has at most one payload in hand. */
  predicate HandsInOrder(l: Ledger) {
    H.InOrder(l.hands, 0, l.receives)
  }

  /** Every payload that entered is in exactly one place, with multiplicity. */
  ghost predicate Conserved(v: View) {
    var l := v.box.ledger;
    l.sent + l.movedIn == Placed(v.box) + Held(v.claims, v.box.index) + Settled(l)
  }

  /** In a receiver's hand, and nowhere in Redis. */
  function Astray(l: Ledger): multiset<Task> {
    H.Tasks(l.hands)
  }

  function Settled(l: Ledger): multiset<Task> {
    l.acked + l.received + l.purged + l.movedOut + Astray(l)
  }

  /** In the inbox, in the dead-letter queue, or trimmed off its end. */
  function Placed(b: Box): multiset<Task> {
    multiset(b.inbox) + multiset(b.dlq) + b.ledger.trimmed
  }

  ghost predicate Inv(v: View, a: Actor) {
    Agree(v, a) && WithinBudget(v, a) && Bounded(v.box) && Conserved(v)
  }

  /** The claims of every other actor are as before. */
  ghost predicate OthersKept(v: View, w: View, a: Actor) {
    && (forall id :: id in v.claims && v.claims[id].actor != a ==> id in w.claims && w.claims[id] == v.claims[id])
    && (forall id :: id in w.claims && w.claims[id].actor != a ==> id in v.claims && v.claims[id] == w.claims[id])
  }

  // ----------------------------------------------------------- index lemmas

  lemma ConsSorted(e: Entry, t: seq<Entry>)
    requires Sorted(t) && forall f :: f in t ==> Before(e, f)
    ensures Sorted([e] + t)
  {}

  lemma HeadBeforeTail(s: seq<Entry>)
    requires Sorted(s) && s != []
    ensures Sorted(s[1..]) && forall f :: f in s[1..] ==> f in s && Before(s[0], f)
    ensures forall f :: f in s <==> f == s[0] || f in s[1..]
  {
    assert s == [s[0]] + s[1..];
  }

  lemma {:induction false} InsertKeepsOrder(s: seq<Entry>, e: Entry)
    requires Sorted(s) && forall f :: f in s ==> f.id != e.id
    ensures Sorted(Insert(s, e))
    ensures forall f :: f in Insert(s, e) <==> f == e || f in s
  {
    if s != [] {
      HeadBeforeTail(s);
      if !Before(e, s[0]) {
        InsertKeepsOrder(s[1..], e);
        ConsSorted(s[0], Insert(s[1..], e));
      }
    }
  }

  lemma {:induction false} WithoutKeepsOrder(s: seq<Entry>, id: ClaimId)
    requires Sorted(s)
    ensures Sorted(Without(s, id))
    ensures forall f :: f in Without(s, id) <==> f in s && f.id != id
  {
    if s != [] {
      HeadBeforeTail(s);
      WithoutKeepsOrder(s[1..], id);
      ConsSorted(s[0], Without(s[1..], id));
    }
  }

  /** No claim is indexed twice. */
  lemma IndexIdsDistinct(v: View, a: Actor, i: nat, j: nat)
    requires Agree(v, a) && i < j < |v.box.index|
    ensures v.box.index[i].id != v.box.index[j].id
  {
    var e, f := v.box.index[i], v.box.index[j];
    assert Before(e, f) && e in v.box.index && f in v.box.index;
  }

  lemma {:induction false} HeldFrame(c: map<ClaimId, Claim>, d: map<ClaimId, Claim>, s: seq<Entry>)
    requires forall e :: e in s ==> TasksOf(c, e.id) == TasksOf(d, e.id)
    ensures Held(c, s) == Held(d, s)
  {
    if s != [] {
      assert s[0] in s && forall e :: e in s[1..] ==> e in s;
      HeldFrame(c, d, s[1..]);
    }
  }

  lemma {:induction false} HeldInsert(c: map<ClaimId, Claim>, s: seq<Entry>, e: Entry)
    ensures Held(c, Insert(s, e)) == Held(c, s) + multiset(TasksOf(c, e.id))
  {
    if s == [] || Before(e, s[0]) {
      assert ([e] + s)[1..] == s;
    } else {
      assert ([s[0]] + Insert(s[1..], e))[1..] == Insert(s[1..], e);
      HeldInsert(c, s[1..], e);
    }
  }

  lemma {:induction false} HeldWithout(c: map<ClaimId, Claim>, s: seq<Entry>, id: ClaimId, k: nat)
    requires k < |s| && s[k].id == id
    requires forall i :: 0 <= i < |s| && i != k ==> s[i].id != id
    ensures Held(c, s) == Held(c, Without(s, id)) + multiset(TasksOf(c, id))
  {
    if k == 0 {
      WithoutAbsent(s[1..], id);
    } else {
      HeldWithout(c, s[1..], id, k - 1);
      HeldCons(c, s[0], Without(s[1..], id));
    }
  }

  lemma HeldCons(c: map<ClaimId, Claim>, e: Entry, s: seq<Entry>)
    ensures Held(c, [e] + s) == multiset(TasksOf(c, e.id)) + Held(c, s)
  {
    assert ([e] + s)[1..] == s;
  }

  lemma {:induction false} WithoutAbsent(s: seq<Entry>, id: ClaimId)
    requires forall e :: e in s ==> e.id != id
    ensures Without(s, id) == s
  {
    if s != [] {
      assert s[0] in s && forall e :: e in s[1..] ==> e in s;
      WithoutAbsent(s[1..], id);
    }
  }

  // --------------------------------------------------------------- recovery

  ghost predicate SameButPlaced(b: Box, c: Box) {
    c.index == b.index && c.ledger.(trimmed := b.ledger.trimmed) == b.ledger
  }

  lemma Regroup<T>(i: multiset<T>, x: multiset<T>, t: multiset<T>, y: multiset<T>, d: multiset<T>, s: multiset<T>)
    requires x + y == s + d
    ensures i + x + (t + y) == i + d + t + s
  {
    assert i + x + (t + y) == i + t + (x + y);
  }

  lemma PushDeadKeeps(b: Box, tasks: seq<Task>)
    ensures Placed(PushDead(b, tasks)) == Placed(b) + multiset(tasks)
    ensures SameButPlaced(b, PushDead(b, tasks)) && |PushDead(b, tasks).dlq| <= DLQ_MAX_LENGTH
  {
    var all := tasks + b.dlq;
    assert all == Trim(all) + Trimmed(all);
    assert multiset(Trim(all)) + multiset(Trimmed(all)) == multiset(all);
    assert multiset(all) == multiset(tasks) + multiset(b.dlq);
    assert Placed(PushDead(b, tasks))
        == multiset(b.inbox) + multiset(Trim(all)) + (b.ledger.trimmed + multiset(Trimmed(all)));
    Regroup(multiset(b.inbox), multiset(Trim(all)), b.ledger.trimmed, multiset(Trimmed(all)),
            multiset(b.dlq), multiset(tasks));
  }

  lemma RecoverTaskKeeps(b: Box, t: Task)
    requires Bounded(b)
    ensures var c := RecoverTask(b, t);
            Bounded(c) && SameButPlaced(b, c) && Placed(c) == Placed(b) + multiset{t}
  {
    PushDeadKeeps(b, [t]);
    assert multiset([t]) == multiset{t};
  }

  lemma {:induction false} RecoverTasksKeeps(b: Box, tasks: seq<Task>)
    requires Bounded(b)
    ensures var c := RecoverTasks(b, tasks);
            Bounded(c) && SameButPlaced(b, c) && Placed(c) == Placed(b) + multiset(tasks)
    decreases |tasks|
  {
    if tasks != [] {
      RecoverTaskKeeps(b, tasks[0]);
      RecoverTasksKeeps(RecoverTask(b, tasks[0]), tasks[1..]);
      assert tasks == [tasks[0]] + tasks[1..];
    }
  }

  /** Dropping the first index entry and its claim keeps the two in agreement. */
  lemma DropFirst(v: View, a: Actor)
    requires Agree(v, a) && v.box.index != []
    ensures var id, rest := v.box.index[0].id, v.box.index[1..];
            && Agree(View(v.claims - {id}, v.box.(index := rest)), a)
            && Held(v.claims - {id}, rest) == Held(v.claims, rest)
  {
    hide Held;
    var id, rest := v.box.index[0].id, v.box.index[1..];
    HeadBeforeTail(v.box.index);
    forall e | e in rest ensures e.id != id {
      var j :| 0 <= j < |rest| && rest[j] == e;
      IndexIdsDistinct(v, a, 0, j + 1);
    }
    HeldFrame(v.claims, v.claims - {id}, rest);
  }

  lemma RecoverOneKeepsInv(v: View, a: Actor)
    requires Inv(v, a) && v.box.index != []
    ensures var w := RecoverFirst(v, 1);
            Inv(w, a) && OthersKept(v, w, a) && w.box.index == v.box.index[1..]
  {
    var id, rest := v.box.index[0].id, v.box.index[1..];
    var b := v.box.(index := rest);
    var w := View(v.claims - {id}, RecoverTasks(b, TasksOf(v.claims, id)));
    assert w == RecoverFirst(v, 1);
    RecoverTasksKeeps(b, TasksOf(v.claims, id));
    DropFirst(v, a);
    assert v.box.index[0] in v.box.index;
    RecoverOneConserves(v, b, w);
  }

  lemma RecoverOneConserves(v: View, b: Box, w: View)
    requires Conserved(v) && v.box.index != []
    requires b == v.box.(index := v.box.index[1..]) && SameButPlaced(b, w.box)
    requires Placed(w.box) == Placed(b) + multiset(TasksOf(v.claims, v.box.index[0].id))
    requires Held(w.claims, b.index) == Held(v.claims, b.index)
    ensures Conserved(w)
  {
    assert w.box.ledger.(trimmed := v.box.ledger.trimmed) == v.box.ledger;
  }

  lemma {:induction false} RecoverFirstKeepsInv(v: View, a: Actor, n: nat)
    requires Inv(v, a) && n <= |v.box.index|
    ensures Inv(RecoverFirst(v, n), a) && OthersKept(v, RecoverFirst(v, n), a)
    ensures RecoverFirst(v, n).box.index == v.box.index[n..]
    decreases n
  {
    hide Inv, RecoverTasks, TasksOf;
    if n > 0 {
      RecoverOneKeepsInv(v, a);
      RecoverFirstKeepsInv(RecoverFirst(v, 1), a, n - 1);
    }
  }

  lemma {:induction false} DueIsExactlyTheExpired(s: seq<Entry>, now: int)
    requires Sorted(s)
    ensures forall e :: e in s[Due(s, now)..] <==> e in s && e.score >= now
  {
    if s != [] {
      HeadBeforeTail(s);
      if s[0].score < now {
        DueIsExactlyTheExpired(s[1..], now);
        assert s[1..][Due(s[1..], now)..] == s[Due(s, now)..];
      }
    }
  }

  /**
   * Recovery takes exactly the expired claims: afterwards the index holds the
   * unexpired ones and nothing else, or, when refused, nothing has changed.
   */
  lemma RecoverLeavesOnlyUnexpired(v: View, a: Actor, now: int, blocked: bool)
    requires Inv(v, a)
    ensures var w := Recover(v, now, blocked);
            && Inv(w, a) && OthersKept(v, w, a)
            && (blocked ==> w == v)
            && (!blocked ==> forall e :: e in w.box.index <==> e in v.box.index && e.score >= now)
  {
    hide RecoverFirst;
    assert Sorted(v.box.index);
    hide Inv;
    if !blocked {
      RecoverFirstKeepsInv(v, a, Due(v.box.index, now));
      DueIsExactlyTheExpired(v.box.index, now);
    }
  }

  // ---------------------------------------------- the other scripts, one each

  lemma TakeDrop(s: seq<Task>, n: nat)
    requires n <= |s|
    ensures multiset(s) == multiset(s[..n]) + multiset(s[n..])
  {
    assert s == s[..n] + s[n..];
  }

  /** Storing a claim under a fresh id, in hash and index. */
  lemma AddClaim(v: View, a: Actor, id: ClaimId, c: Claim)
    requires Agree(v, a) && id !in Ids(v.box.index) && c.actor == a
    requires id in v.claims ==> v.claims[id].actor != a
    ensures var claims, index := v.claims[id := c], Insert(v.box.index, Entry(c.expiresAt, id));
            && Agree(View(claims, v.box.(index := index)), a)
            && Held(claims, index) == Held(v.claims, v.box.index) + multiset(c.tasks)
  {
    var claims, e := v.claims[id := c], Entry(c.expiresAt, id);
    forall f | f in v.box.index ensures f.id != id { assert f.id in Ids(v.box.index); }
    InsertKeepsOrder(v.box.index, e);
    HeldFrame(v.claims, claims, v.box.index);
    HeldInsert(claims, v.box.index, e);
  }

  lemma BatchClaimKeepsInv(v: View, r: ClaimRequest)
    requires Inv(v, r.actor) && ValidClaimRequest(r) && r.id !in v.claims
    ensures var w := BatchClaim(v, r).0; Inv(w, r.actor) && OthersKept(v, w, r.actor)
  {
    hide Held, Insert, Conserved, Sorted;
    var w := BatchClaim(v, r).0;
    if BatchClaim(v, r).1.Claimed? {
      var n := Min(r.maxBatch, |v.box.inbox|);
      AddClaim(v, r.actor, r.id, w.claims[r.id]);
      TakeDrop(v.box.inbox, n);
      TakeConserves(v, w, v.box.inbox[..n]);
    }
  }

  lemma TakeConserves(v: View, w: View, tasks: seq<Task>)
    requires Conserved(v) && w.box.ledger == v.box.ledger && w.box.dlq == v.box.dlq
    requires multiset(v.box.inbox) == multiset(tasks) + multiset(w.box.inbox)
    requires Held(w.claims, w.box.index) == Held(v.claims, v.box.index) + multiset(tasks)
    ensures Conserved(w)
  {
    assert Placed(v.box) == Placed(w.box) + multiset(tasks);
  }

  lemma {:induction false} ClearCountersKeeps(counters: map<MessageId, nat>, tasks: seq<Task>)
    ensures forall m :: m in ClearCounters(counters, tasks) <==>
              m in counters && forall t :: t in tasks ==> CountedId(t) != Some(m)
    ensures forall m :: m in ClearCounters(counters, tasks) ==> ClearCounters(counters, tasks)[m] == counters[m]
    decreases |tasks|
  {
    if tasks != [] {
      var rest := if CountedId(tasks[0]).Some? then counters - {CountedId(tasks[0]).value} else counters;
      ClearCountersKeeps(rest, tasks[1..]);
      assert forall t :: t in tasks <==> t == tasks[0] || t in tasks[1..];
    }
  }

  /** Removing an owned claim from hash and index. */
  lemma RemoveClaim(v: View, a: Actor, id: ClaimId)
    requires Agree(v, a) && id in v.claims && v.claims[id].actor == a
    ensures var claims, index := v.claims - {id}, Without(v.box.index, id);
            && Agree(View(claims, v.box.(index := index)), a)
            && Held(v.claims, v.box.index) == Held(claims, index) + multiset(v.claims[id].tasks)
            && Held(v.claims, index) == Held(claims, index)
  {
    hide Held, Without;
    var s := v.box.index;
    WithoutKeepsOrder(s, id);
    var k :| 0 <= k < |s| && s[k] == Entry(v.claims[id].expiresAt, id);
    forall i | 0 <= i < |s| && i != k ensures s[i].id != id {
      if i < k { IndexIdsDistinct(v, a, i, k); } else { IndexIdsDistinct(v, a, k, i); }
    }
    HeldWithout(v.claims, s, id, k);
    HeldFrame(v.claims, v.claims - {id}, Without(s, id));
  }

  lemma AcknowledgeKeepsInv(v: View, a: Actor, session: Session, id: ClaimId)
    requires Inv(v, a)
    ensures var w := Acknowledge(v, a, session, id).0; Inv(w, a) && OthersKept(v, w, a)
  {
    if Owns(v, a, session, id) {
      RemoveClaim(v, a, id);
      ClearCountersKeeps(v.box.counters, v.claims[id].tasks);
      var w := Acknowledge(v, a, session, id).0;
      assert Placed(w.box) == Placed(v.box);
    }
  }

  lemma RenewKeepsInv(v: View, a: Actor, session: Session, id: ClaimId, ttl: int, now: int)
    requires Inv(v, a)
    ensures var w := Renew(v, a, session, id, ttl, now).0; Inv(w, a) && OthersKept(v, w, a)
  {
    hide Held, Insert, Without, Bounded, Conserved, Sorted;
    var r := Renew(v, a, session, id, ttl, now);
    if r.1.Renewed? {
      var c := v.claims[id].(expiresAt := r.1.expiresAt);
      var u := View(v.claims - {id}, v.box.(index := Without(v.box.index, id)));
      RemoveClaim(v, a, id);
      WithoutKeepsOrder(v.box.index, id);
      assert id !in Ids(u.box.index);
      AddClaim(u, a, id, c);
      assert u.claims[id := c] == v.claims[id := c];
      ReplaceKeepsInv(v, r.0, a, id);
    }
  }

  lemma ReplaceKeepsInv(v: View, w: View, a: Actor, id: ClaimId)
    requires Inv(v, a) && Agree(w, a) && w.box == v.box.(index := w.box.index)
    requires id in v.claims && v.claims[id].actor == a && id in w.claims && w.claims == v.claims[id := w.claims[id]]
    requires w.claims[id].actor == a
             && w.claims[id].expiresAt <= w.claims[id].claimedAt + CLAIM_LIFETIME_BUDGET_SECONDS * 1000
    requires Held(w.claims, w.box.index) == Held(v.claims, v.box.index)
    ensures Inv(w, a) && OthersKept(v, w, a)
  {
    assert Placed(w.box) == Placed(v.box);
  }

  lemma RequeueMoves(v: View, m: MessageId)
    ensures var w := Requeue(v, m);
            && w.claims == v.claims && w.box.index == v.box.index && w.box.ledger == v.box.ledger
            && |w.box.dlq| <= |v.box.dlq|
            && (forall k :: k in w.box.counters ==> k in v.box.counters && w.box.counters[k] == v.box.counters[k])
            && multiset(w.box.inbox) + multiset(w.box.dlq) == multiset(v.box.inbox) + multiset(v.box.dlq)
  {
    var n := FindDead(v.box.dlq, m);
    if n < |v.box.dlq| { MoveOne(v.box.inbox, v.box.dlq, n); }
  }

  lemma RequeueConserves(v: View, m: MessageId)
    requires Conserved(v)
    ensures Conserved(Requeue(v, m))
  {
    RequeueMoves(v, m);
    assert Placed(Requeue(v, m).box) == Placed(v.box);
    hide Placed, Settled, Held, Requeue;
    BooksKept(v, Requeue(v, m), multiset{});
  }

  lemma RequeueKeepsInv(v: View, a: Actor, m: MessageId)
    requires Inv(v, a)
    ensures Inv(Requeue(v, m), a) && Requeue(v, m).claims == v.claims
  {
    RequeueConserves(v, m);
    RequeueMoves(v, m);
    assert Bounded(v.box);
    hide Conserved, HandsInOrder, Requeue, Inv;
    BoxKeepsInv(v, Requeue(v, m), a);
  }

  lemma MoveOne(inbox: seq<Task>, dlq: seq<Task>, n: nat)
    requires n < |dlq|
    ensures multiset(inbox + [dlq[n]]) + multiset(dlq[..n] + dlq[n + 1..]) == multiset(inbox) + multiset(dlq)
  {
    assert dlq == dlq[..n] + [dlq[n]] + dlq[n + 1..];
  }

  /** Scripts that touch no claim need only keep the books and the bounds. */
  lemma BoxKeepsInv(v: View, w: View, a: Actor)
    requires Inv(v, a) && w.claims == v.claims && w.box.index == v.box.index
    requires forall m :: m in w.box.counters ==> m in v.box.counters && w.box.counters[m] == v.box.counters[m]
    requires |w.box.dlq| <= DLQ_MAX_LENGTH && Conserved(w) && HandsInOrder(w.box.ledger)
    ensures Inv(w, a)
  {
    hide Conserved, Sorted, HandsInOrder;
  }

  /** x leaves its place and is settled, or the other way round. */
  lemma BooksKept(v: View, w: View, x: multiset<Task>)
    requires Conserved(v) && w.claims == v.claims && w.box.index == v.box.index
    requires w.box.ledger.sent == v.box.ledger.sent && w.box.ledger.movedIn == v.box.ledger.movedIn
    requires (Placed(v.box) == Placed(w.box) + x && Settled(w.box.ledger) == Settled(v.box.ledger) + x) ||
             (Placed(w.box) == Placed(v.box) + x && Settled(v.box.ledger) == Settled(w.box.ledger) + x)
    ensures Conserved(w)
  {
    hide Placed, Settled, Held;
  }

  lemma SettledAstray(l: Ledger, k: Ledger, x: multiset<Task>)
    requires k == l.(hands := k.hands, receives := k.receives) && Astray(l) == Astray(k) + x
    ensures Settled(l) == Settled(k) + x
  {
    hide Astray;
  }

  lemma SettledReceived(l: Ledger, t: Task)
    ensures Settled(l.(received := l.received + multiset{t})) == Settled(l) + multiset{t}
  {
    assert Astray(l.(received := l.received + multiset{t})) == Astray(l);
    hide Astray;
  }

  lemma SettledOutOfHand(b: Box, k: nat)
    requires HandTask(b, k).Some?
    ensures Settled(b.ledger) == Settled(OutOfHand(b, k).ledger) + multiset{HandTask(b, k).value}
    ensures Placed(OutOfHand(b, k)) == Placed(b)
  {
    H.DropTakesTask(b.ledger.hands, k);
    SettledAstray(b.ledger, OutOfHand(b, k).ledger, multiset{HandTask(b, k).value});
  }

  lemma FromInbox(b: Box, c: Box, t: Task)
    requires b.inbox == [t] + c.inbox && c.dlq == b.dlq && c.ledger.trimmed == b.ledger.trimmed
    ensures Placed(b) == Placed(c) + multiset{t}
  {
    assert multiset(b.inbox) == multiset{t} + multiset(c.inbox);
  }

  lemma PopKeepsInv(v: View, a: Actor)
    requires Inv(v, a)
    ensures Inv(Pop(v), a) && Pop(v).claims == v.claims
  {
    if v.box.inbox != [] {
      PopBooks(v);
      PopFrame(v);
      hide Placed, Settled, Held, Sorted, HandsInOrder, Pop;
      BooksKept(v, Pop(v), multiset{v.box.inbox[0]});
      assert Bounded(v.box);
      hide Inv, Conserved;
      BoxKeepsInv(v, Pop(v), a);
    }
  }

  lemma PopFrame(v: View)
    ensures var w := Pop(v);
            && w.claims == v.claims && w.box.index == v.box.index && w.box.counters == v.box.counters && w.box.dlq == v.box.dlq
            && w.box.ledger.sent == v.box.ledger.sent && w.box.ledger.movedIn == v.box.ledger.movedIn
  {
  }

  lemma PopBooks(v: View)
    requires v.box.inbox != [] && HandsInOrder(v.box.ledger)
    ensures Placed(v.box) == Placed(Pop(v).box) + multiset{v.box.inbox[0]}
    ensures Settled(Pop(v).box.ledger) == Settled(v.box.ledger) + multiset{v.box.inbox[0]}
    ensures HandsInOrder(Pop(v).box.ledger)
  {
    var l, t := v.box.ledger, v.box.inbox[0];
    FromInbox(v.box, Pop(v).box, t);
    H.BeginsInOrder(l.hands, 0, l.receives, t);
    H.BeginsTakesTask(l.hands, l.receives, t);
    SettledAstray(Pop(v).box.ledger, l, multiset{t});
  }

  lemma ReturnBooks(b: Box, k: nat)
    requires HandTask(b, k).Some?
    ensures var t, c := HandTask(b, k).value, OutOfHand(b, k);
            var d := c.(ledger := c.ledger.(received := c.ledger.received + multiset{t}));
            Placed(d) == Placed(b) && Settled(d.ledger) == Settled(b.ledger)
  {
    SettledOutOfHand(b, k);
    SettledReceived(OutOfHand(b, k).ledger, HandTask(b, k).value);
    hide Settled, HandTask;
  }

  lemma ReturnKeepsInv(v: View, a: Actor, k: nat)
    requires Inv(v, a)
    ensures Inv(Return(v, k), a) && Return(v, k).claims == v.claims
  {
    if HandTask(v.box, k).Some? {
      ReturnBooks(v.box, k);
      H.DropInOrder(v.box.ledger.hands, k, 0, v.box.ledger.receives);
      assert HandsInOrder(Return(v, k).box.ledger);
      hide Placed, Settled, Held, Sorted, HandsInOrder, HandTask;
      BooksKept(v, Return(v, k), multiset{});
      hide Inv, Conserved;
      BoxKeepsInv(v, Return(v, k), a);
    }
  }

  lemma ParkBooks(b: Box, k: nat)
    requires HandTask(b, k).Some?
    ensures var t, c := HandTask(b, k).value, OutOfHand(b, k);
            var d := PushDead(c, [t]);
            && Placed(d) == Placed(b) + multiset{t} && Settled(b.ledger) == Settled(d.ledger) + multiset{t}
            && |d.dlq| <= DLQ_MAX_LENGTH && d.index == b.index && d.counters == b.counters
            && d.ledger.hands == c.ledger.hands && d.ledger.receives == b.ledger.receives
            && d.ledger.sent == b.ledger.sent && d.ledger.movedIn == b.ledger.movedIn
  {
    var t, c := HandTask(b, k).value, OutOfHand(b, k);
    SettledOutOfHand(b, k);
    PushDeadKeeps(c, [t]);
    assert multiset([t]) == multiset{t};
    assert Settled(PushDead(c, [t]).ledger) == Settled(c.ledger);
  }

  lemma ParkKeepsInv(v: View, a: Actor, k: nat)
    requires Inv(v, a)
    ensures Inv(Park(v, k), a) && Park(v, k).claims == v.claims
  {
    if HandTask(v.box, k).Some? {
      ParkBooks(v.box, k);
      H.DropInOrder(v.box.ledger.hands, k, 0, v.box.ledger.receives);
      assert HandsInOrder(Park(v, k).box.ledger);
      hide Placed, Settled, Held, Sorted, HandsInOrder, HandTask, PushDead;
      BooksKept(v, Park(v, k), multiset{HandTask(v.box, k).value});
      hide Inv, Conserved;
      BoxKeepsInv(v, Park(v, k), a);
    }
  }

  lemma SendConserves(v: View, t: Task, bound: nat)
    requires Conserved(v)
    ensures Conserved(Send(v, t, bound))
  {
    if |v.box.inbox| < bound {
      var l, k := v.box.ledger, Send(v, t, bound).box.ledger;
      assert Placed(Send(v, t, bound).box) == Placed(v.box) + multiset{t};
      assert Astray(k) == Astray(l);
      assert Settled(k) == Settled(l);
      assert k.sent + k.movedIn == l.sent + l.movedIn + multiset{t};
      hide Placed, Settled, Held;
    }
  }

  lemma SendFrame(v: View, t: Task, bound: nat)
    ensures var w := Send(v, t, bound);
            && w.claims == v.claims && w.box.index == v.box.index && w.box.counters == v.box.counters
            && w.box.dlq == v.box.dlq && w.box.ledger == v.box.ledger.(sent := w.box.ledger.sent)
  {
  }

  lemma SendKeepsInv(v: View, a: Actor, t: Task, bound: nat)
    requires Inv(v, a)
    ensures Inv(Send(v, t, bound), a) && Send(v, t, bound).claims == v.claims
  {
    SendConserves(v, t, bound);
    SendFrame(v, t, bound);
    assert Bounded(v.box);
    hide Inv, Conserved, Send;
    BoxKeepsInv(v, Send(v, t, bound), a);
  }

  lemma PurgeKeepsInv(v: View, a: Actor)
    requires Inv(v, a)
    ensures Inv(Purge(v), a) && OthersKept(v, Purge(v), a)
  {
    forall id | id in Purge(v).claims ensures Purge(v).claims[id].actor != a {
      assert forall e :: e in v.box.index ==> e.id != id;
    }
    forall id | id in v.claims && v.claims[id].actor != a ensures id !in Ids(v.box.index) {}
  }

  // ------------------------------------------------------------ one mailbox

  /** claims-recover.lua and its companions run under a name's own keys. */
  datatype Event =
    | SendTo(task: Task, bound: nat)
    | PopOne(receive: nat)
    | Returned(receive: nat)
    | Parked(receive: nat)
    | PopBatch(request: ClaimRequest)
    | Ack(session: Session, id: ClaimId)
    | Extend(session: Session, id: ClaimId, ttlSeconds: int, now: int)
    | RecoverExpired(now: int, blocked: bool)
    | RequeueDead(message: MessageId)
    | Unregister
    | CounterExpires(message: MessageId)

  /** A pop blocks until there is a payload; only the receive that has it returns or parks it. */
  predicate Enabled(v: View, a: Actor, e: Event) {
    match e
    case PopBatch(r) => ValidClaimRequest(r) && r.actor == a && r.id !in v.claims
    case PopOne(k) => v.box.inbox != [] && k == v.box.ledger.receives
    case Returned(k) => HandTask(v.box, k).Some? && !HandTask(v.box, k).value.Undecodable?
    case Parked(k) => HandTask(v.box, k).Some? && HandTask(v.box, k).value.Undecodable?
    case _ => true
  }

  function Step(v: View, a: Actor, e: Event): View
    requires Enabled(v, a, e)
  {
    match e
    case SendTo(t, bound) => Send(v, t, bound)
    case PopOne(_) => Pop(v)
    case Returned(k) => Return(v, k)
    case Parked(k) => Park(v, k)
    case PopBatch(r) => BatchClaim(v, r).0
    case Ack(s, id) => Acknowledge(v, a, s, id).0
    case Extend(s, id, ttl, now) => Renew(v, a, s, id, ttl, now).0
    case RecoverExpired(now, blocked) => Recover(v, now, blocked)
    case RequeueDead(m) => Requeue(v, m)
    case Unregister => Purge(v)
    case CounterExpires(m) => v.(box := v.box.(counters := v.box.counters - {m}))
  }

  lemma RecoverAddsNoClaim(v: View, now: int, blocked: bool)
    ensures Recover(v, now, blocked).claims.Keys <= v.claims.Keys
  {
    RecoverFirstAddsNoClaim(v, Due(v.box.index, now));
  }

  lemma {:induction false} RecoverFirstAddsNoClaim(v: View, n: nat)
    ensures RecoverFirst(v, n).claims.Keys <= v.claims.Keys
    decreases n
  {
    if n > 0 && v.box.index != [] {
      var id := v.box.index[0].id;
      RecoverFirstAddsNoClaim(
        View(v.claims - {id}, RecoverTasks(v.box.(index := v.box.index[1..]), TasksOf(v.claims, id))), n - 1);
    }
  }

  lemma CounterExpiryKeepsInv(v: View, a: Actor, m: MessageId)
    requires Inv(v, a)
    ensures Inv(v.(box := v.box.(counters := v.box.counters - {m})), a)
  {
    var w := v.(box := v.box.(counters := v.box.counters - {m}));
    assert Placed(w.box) == Placed(v.box);
    assert Conserved(w);
    hide Conserved, HandsInOrder;
    BoxKeepsInv(v, w, a);
  }

  lemma StepKeepsInv(v: View, a: Actor, e: Event)
    requires Inv(v, a) && Enabled(v, a, e)
    ensures Inv(Step(v, a, e), a) && OthersKept(v, Step(v, a, e), a)
  {
    hide Inv, Send, Pop, Return, Park, BatchClaim, Acknowledge, Renew, Recover, Requeue, Purge;
    match e {
      case SendTo(t, bound) => SendKeepsInv(v, a, t, bound);
      case PopOne(_) => PopKeepsInv(v, a);
      case Returned(k) => ReturnKeepsInv(v, a, k);
      case Parked(k) => ParkKeepsInv(v, a, k);
      case PopBatch(r) => BatchClaimKeepsInv(v, r);
      case Ack(s, id) => AcknowledgeKeepsInv(v, a, s, id);
      case Extend(s, id, ttl, now) => RenewKeepsInv(v, a, s, id, ttl, now);
      case RecoverExpired(now, blocked) => RecoverLeavesOnlyUnexpired(v, a, now, blocked);
      case RequeueDead(m) => RequeueKeepsInv(v, a, m);
      case Unregister => PurgeKeepsInv(v, a);
      case CounterExpires(m) => CounterExpiryKeepsInv(v, a, m);
    }
  }

  // ---------------------------------------------------- what recovery does

  /** Does recovery give the task back, rather than quarantine it? */
  predicate Returns(b: Box, t: Task) {
    CountedId(t) == None || Counter(b, CountedId(t).value) < RECOVER_CAP
  }

  /** The tasks recovery puts back into the inbox, in order, and those it pushes to the dead letters. */
  function Requeued(b: Box, tasks: seq<Task>): seq<Task>
    decreases |tasks|
  {
    if tasks == [] then []
    else (if Returns(b, tasks[0]) then [tasks[0]] else []) + Requeued(RecoverTask(b, tasks[0]), tasks[1..])
  }

  function Quarantined(b: Box, tasks: seq<Task>): seq<Task>
    decreases |tasks|
  {
    if tasks == [] then []
    else (if Returns(b, tasks[0]) then [] else [tasks[0]]) + Quarantined(RecoverTask(b, tasks[0]), tasks[1..])
  }

  function Front(v: View): (Box, seq<Task>)
    requires v.box.index != []
  {
    (v.box.(index := v.box.index[1..]), TasksOf(v.claims, v.box.index[0].id))
  }

  /** The same over the first n claims of the index. */
  function RequeuedFirst(v: View, n: nat): seq<Task>
    decreases n
  {
    if n == 0 || v.box.index == [] then []
    else Requeued(Front(v).0, Front(v).1) + RequeuedFirst(RecoverFirst(v, 1), n - 1)
  }

  function QuarantinedFirst(v: View, n: nat): seq<Task>
    decreases n
  {
    if n == 0 || v.box.index == [] then []
    else Quarantined(Front(v).0, Front(v).1) + QuarantinedFirst(RecoverFirst(v, 1), n - 1)
  }

  function Occurrences(s: seq<Task>, m: MessageId): nat {
    if s == [] then 0 else (if CountedId(s[0]) == Some(m) then 1 else 0) + Occurrences(s[1..], m)
  }

  lemma {:induction false} OccurrencesAppend(s: seq<Task>, t: seq<Task>, m: MessageId)
    ensures Occurrences(s + t, m) == Occurrences(s, m) + Occurrences(t, m)
  {
    if s == [] {
      assert s + t == t;
    } else {
      assert (s + t)[1..] == s[1..] + t;
      OccurrencesAppend(s[1..], t, m);
    }
  }

  /** Everything ever dead-lettered and not requeued: in the queue, or trimmed off. */
  function Dead(b: Box): multiset<Task> {
    multiset(b.dlq) + b.ledger.trimmed
  }

  /** From b to c, back came back into the inbox and dead went to the dead letters; the counters say how often. */
  ghost predicate Splits(b: Box, c: Box, back: seq<Task>, dead: seq<Task>) {
    && c.inbox == b.inbox + back
    && Dead(c) == Dead(b) + multiset(dead)
    && forall m :: Counter(c, m) + RECOVER_CAP * Occurrences(dead, m) == Counter(b, m) + Occurrences(back, m)
  }

  lemma SplitsCompose(b: Box, c: Box, d: Box, back: seq<Task>, dead: seq<Task>, back': seq<Task>, dead': seq<Task>)
    requires Splits(b, c, back, dead) && Splits(c, d, back', dead')
    ensures Splits(b, d, back + back', dead + dead')
  {
    hide Counter, Occurrences, Dead;
    assert b.inbox + back + back' == b.inbox + (back + back');
    forall m ensures Counter(d, m) + RECOVER_CAP * Occurrences(dead + dead', m) == Counter(b, m) + Occurrences(back + back', m) {
      OccurrencesAppend(back, back', m);
      OccurrencesAppend(dead, dead', m);
      assert Counter(c, m) + RECOVER_CAP * Occurrences(dead, m) == Counter(b, m) + Occurrences(back, m);
    }
  }

  lemma SplitsNothing(b: Box, c: Box)
    requires c == b.(index := c.index)
    ensures Splits(b, c, [], [])
  {
    assert b.inbox + [] == b.inbox;
  }

  lemma PushDeadAddsDead(b: Box, tasks: seq<Task>)
    ensures Dead(PushDead(b, tasks)) == Dead(b) + multiset(tasks)
  {
    var all := tasks + b.dlq;
    assert all == Trim(all) + Trimmed(all);
    assert multiset(Trim(all)) + multiset(Trimmed(all)) == multiset(all);
    assert multiset(all) == multiset(tasks) + multiset(b.dlq);
    Regroup(multiset{}, multiset(Trim(all)), b.ledger.trimmed, multiset(Trimmed(all)), multiset(b.dlq), multiset(tasks));
    assert Dead(PushDead(b, tasks)) == multiset{} + multiset(Trim(all)) + (b.ledger.trimmed + multiset(Trimmed(all)));
    assert Dead(b) + multiset(tasks) == multiset{} + multiset(b.dlq) + b.ledger.trimmed + multiset(tasks);
  }

  lemma RecoverTaskSplits(b: Box, t: Task)
    requires Bounded(b)
    ensures if Returns(b, t) then Splits(b, RecoverTask(b, t), [t], []) else Splits(b, RecoverTask(b, t), [], [t])
  {
    var c := RecoverTask(b, t);
    forall m ensures Occurrences([t], m) == if CountedId(t) == Some(m) then 1 else 0 {}
    if !Returns(b, t) {
      assert b.inbox + [] == b.inbox;
      PushDeadAddsDead(b, [t]);
    } else {
      assert Dead(c) == Dead(b) + multiset([]);
    }
  }

  /** Recovery of one claim: what returns and what is quarantined. */
  lemma {:induction false} RecoverySplits(b: Box, tasks: seq<Task>)
    requires Bounded(b)
    ensures Splits(b, RecoverTasks(b, tasks), Requeued(b, tasks), Quarantined(b, tasks))
    decreases |tasks|
  {
    if tasks == [] {
      SplitsNothing(b, b);
    } else {
      var t, c := tasks[0], RecoverTask(b, tasks[0]);
      RecoverTaskKeeps(b, t);
      RecoverTaskSplits(b, t);
      hide Splits, Bounded, Returns, RecoverTask, SameButPlaced, Placed;
      RecoverySplits(c, tasks[1..]);
      var back0: seq<Task>, dead0: seq<Task> := if Returns(b, t) then [t] else [], if Returns(b, t) then [] else [t];
      SplitsCompose(b, c, RecoverTasks(c, tasks[1..]), back0, dead0, Requeued(c, tasks[1..]), Quarantined(c, tasks[1..]));
    }
  }

  /** Every task of the claim does one or the other, once. */
  lemma {:induction false} EveryTaskReturnsOrIsQuarantined(b: Box, tasks: seq<Task>)
    ensures multiset(Requeued(b, tasks)) + multiset(Quarantined(b, tasks)) == multiset(tasks)
    decreases |tasks|
  {
    if tasks != [] {
      var t, c := tasks[0], RecoverTask(b, tasks[0]);
      EveryTaskReturnsOrIsQuarantined(c, tasks[1..]);
      hide Returns, RecoverTask;
      var back0: seq<Task>, dead0: seq<Task> := if Returns(b, t) then [t] else [], if Returns(b, t) then [] else [t];
      assert multiset(back0) + multiset(dead0) == multiset([t]);
      assert tasks == [t] + tasks[1..];
      Parts(back0, Requeued(c, tasks[1..]), dead0, Quarantined(c, tasks[1..]), t, tasks[1..]);
    }
  }

  lemma Parts(x: seq<Task>, x': seq<Task>, y: seq<Task>, y': seq<Task>, t: Task, rest: seq<Task>)
    requires multiset(x) + multiset(y) == multiset([t]) && multiset(x') + multiset(y') == multiset(rest)
    ensures multiset(x + x') + multiset(y + y') == multiset([t] + rest)
  {
  }

  lemma {:induction false} FirstSplits(v: View, n: nat)
    requires Bounded(v.box)
    ensures Bounded(RecoverFirst(v, n).box)
    ensures Splits(v.box, RecoverFirst(v, n).box, RequeuedFirst(v, n), QuarantinedFirst(v, n))
    decreases n
  {
    if n > 0 && v.box.index != [] {
      var (b, tasks) := Front(v);
      assert Bounded(b);
      RecoverTasksKeeps(b, tasks);
      RecoverySplits(b, tasks);
      SplitsNothing(v.box, b);
      var u := RecoverFirst(v, 1);
      assert u == View(v.claims - {v.box.index[0].id}, RecoverTasks(b, tasks));
      FirstSplits(u, n - 1);
      hide Splits, RecoverTasks, Requeued, Quarantined, Bounded;
      var back, dead := Requeued(b, tasks), Quarantined(b, tasks);
      SplitsCompose(v.box, b, u.box, [], [], back, dead);
      assert [] + back == back && [] + dead == dead;
      SplitsCompose(v.box, u.box, RecoverFirst(u, n - 1).box, back, dead, RequeuedFirst(u, n - 1), QuarantinedFirst(u, n - 1));
    } else {
      SplitsNothing(v.box, v.box);
    }
  }

  /** How often tasks with id m went back to the inbox, and to the dead-letter queue. */
  datatype Tally = Tally(returned: nat, dead: nat)

  function Add(s: Tally, t: Tally): Tally {
    Tally(s.returned + t.returned, s.dead + t.dead)
  }

  /** What one event's recovery does to message m. */
  function TallyEvent(v: View, e: Event, m: MessageId): Tally {
    if e.RecoverExpired? && !e.blocked then
      var n := Due(v.box.index, e.now);
      Tally(Occurrences(RequeuedFirst(v, n), m), Occurrences(QuarantinedFirst(v, n), m))
    else Tally(0, 0)
  }

  /** The event gives message m a fresh recovery budget. */
  ghost predicate Resets(v: View, a: Actor, e: Event, m: MessageId) {
    || (e.Ack? && Owns(v, a, e.session, e.id) && exists t :: t in v.claims[e.id].tasks && CountedId(t) == Some(m))
    || (e.RequeueDead? && e.message == m && FindDead(v.box.dlq, m) < |v.box.dlq|)
    || (e.CounterExpires? && e.message == m)
    || e.Unregister?
  }

  /** Recovery moves what its tally says, and but for a reset only recovery moves the counter. */
  lemma EventTally(v: View, a: Actor, e: Event, m: MessageId)
    requires Inv(v, a) && Enabled(v, a, e) && !Resets(v, a, e, m)
    ensures var t := TallyEvent(v, e, m);
            Counter(Step(v, a, e).box, m) + RECOVER_CAP * t.dead == Counter(v.box, m) + t.returned
  {
    hide Held, Sorted;
    match e {
      case RecoverExpired(now, blocked) => FirstSplits(v, Due(v.box.index, now));
      case Ack(s, id) =>
        if Owns(v, a, s, id) { ClearCountersKeeps(v.box.counters, v.claims[id].tasks); }
      case _ =>
    }
  }

  // ---------------------------------------------------------- runs of a mailbox

  predicate ValidRun(v: View, a: Actor, es: seq<Event>)
    decreases |es|
  {
    es == [] || (Enabled(v, a, es[0]) && ValidRun(Step(v, a, es[0]), a, es[1..]))
  }

  function Run(v: View, a: Actor, es: seq<Event>): View
    requires ValidRun(v, a, es)
    decreases |es|
  {
    if es == [] then v else Run(Step(v, a, es[0]), a, es[1..])
  }

  lemma {:induction false} RecoverFirstKeepsLedger(v: View, n: nat)
    requires Bounded(v.box)
    ensures RecoverFirst(v, n).box.ledger == v.box.ledger.(trimmed := RecoverFirst(v, n).box.ledger.trimmed)
    decreases n
  {
    if n > 0 && v.box.index != [] {
      var (b, tasks) := Front(v);
      assert Bounded(b);
      RecoverTasksKeeps(b, tasks);
      RecoverFirstKeepsLedger(View(v.claims - {v.box.index[0].id}, RecoverTasks(b, tasks)), n - 1);
    }
  }

  /** Receive k has a payload in hand. */
  ghost predicate UnderWay(v: View, k: nat) {
    HandTask(v.box, k).Some?
  }

  lemma HandsAreNumbered(v: View, a: Actor, k: nat)
    requires Inv(v, a)
    ensures UnderWay(v, k) ==> k < v.box.ledger.receives
  {
    assert HandsInOrder(v.box.ledger);
    H.InOrderBounds(v.box.ledger.hands, 0, v.box.ledger.receives, k);
  }

  lemma OtherStepKeepsHands(v: View, a: Actor, e: Event)
    requires Inv(v, a) && Enabled(v, a, e) && !e.PopOne? && !e.Returned? && !e.Parked?
    ensures Step(v, a, e).box.ledger.hands == v.box.ledger.hands
    ensures Step(v, a, e).box.ledger.receives == v.box.ledger.receives
  {
    hide Held, Sorted, RecoverFirst;
    if e.RecoverExpired? { RecoverFirstKeepsLedger(v, Due(v.box.index, e.now)); }
  }

  lemma ReceiveMovesHands(v: View, a: Actor, e: Event, k: nat)
    requires Inv(v, a) && Enabled(v, a, e) && (e.PopOne? || e.Returned? || e.Parked?)
    ensures UnderWay(Step(v, a, e), k) <==> (UnderWay(v, k) || e == PopOne(k)) && e != Returned(k) && e != Parked(k)
    ensures Step(v, a, e).box.ledger.receives == v.box.ledger.receives + if e.PopOne? then 1 else 0
  {
    assert H.InOrder(v.box.ledger.hands, 0, v.box.ledger.receives);
    hide Inv, Placed;
    match e {
      case PopOne(n) => H.BeginsIsUnderWay(v.box.ledger.hands, n, v.box.inbox[0], k);
      case Returned(n) => H.DropEnds(v.box.ledger.hands, n, k, 0, v.box.ledger.receives);
      case Parked(n) => H.DropEnds(v.box.ledger.hands, n, k, 0, v.box.ledger.receives);
    }
  }

  /** Which receives are under way after one event. */
  lemma StepMovesHands(v: View, a: Actor, e: Event, k: nat)
    requires Inv(v, a) && Enabled(v, a, e)
    ensures UnderWay(Step(v, a, e), k) <==> (UnderWay(v, k) || e == PopOne(k)) && e != Returned(k) && e != Parked(k)
    ensures v.box.ledger.receives <= Step(v, a, e).box.ledger.receives
    ensures e.PopOne? ==> e.receive == v.box.ledger.receives < Step(v, a, e).box.ledger.receives
    ensures UnderWay(v, k) ==> k < v.box.ledger.receives
  {
    assert HandsInOrder(v.box.ledger);
    H.InOrderBounds(v.box.ledger.hands, 0, v.box.ledger.receives, k);
    hide Inv, Step;
    if e.PopOne? || e.Returned? || e.Parked? {
      ReceiveMovesHands(v, a, e, k);
    } else {
      OtherStepKeepsHands(v, a, e);
    }
  }

  // ------------------------------------------------------- claim bookkeeping

  lemma {:induction false} InsertLength(s: seq<Entry>, e: Entry)
    ensures |Insert(s, e)| == |s| + 1
  {
    if s != [] && !Before(e, s[0]) { InsertLength(s[1..], e); }
  }

  lemma {:induction false} WithoutLength(s: seq<Entry>, id: ClaimId)
    ensures |Without(s, id)| <= |s| && (id in Ids(s) ==> |Without(s, id)| < |s|)
  {
    if s != [] {
      WithoutLength(s[1..], id);
      if id in Ids(s) && s[0].id != id {
        var e :| e in s && e.id == id;
        assert s == [s[0]] + s[1..] && e in s[1..];
      }
    }
  }

  predicate ClaimsUnder(es: seq<Event>, ceiling: int) {
    forall i :: 0 <= i < |es| && es[i].PopBatch? ==> es[i].request.maxConcurrent == Some(ceiling)
  }

  lemma {:induction false} RecoverTasksKeepsIndex(b: Box, tasks: seq<Task>)
    ensures RecoverTasks(b, tasks).index == b.index
    decreases |tasks|
  {
    if tasks != [] { RecoverTasksKeepsIndex(RecoverTask(b, tasks[0]), tasks[1..]); }
  }

  lemma {:induction false} RecoverFirstShrinks(v: View, n: nat)
    ensures |RecoverFirst(v, n).box.index| <= |v.box.index|
    decreases n
  {
    if n > 0 && v.box.index != [] {
      var b, tasks := v.box.(index := v.box.index[1..]), TasksOf(v.claims, v.box.index[0].id);
      RecoverTasksKeepsIndex(b, tasks);
      RecoverFirstShrinks(View(v.claims - {v.box.index[0].id}, RecoverTasks(b, tasks)), n - 1);
    }
  }

  lemma ClaimKeepsCeiling(v: View, r: ClaimRequest, ceiling: int)
    requires ValidClaimRequest(r) && |v.box.index| <= ceiling && r.maxConcurrent == Some(ceiling)
    ensures |BatchClaim(v, r).0.box.index| <= ceiling
  {
    hide Insert;
    InsertLength(v.box.index, Entry(r.now + r.ttlSeconds * 1000, r.id));
  }

  lemma RenewKeepsCeiling(v: View, a: Actor, s: Session, id: ClaimId, ttl: int, now: int)
    requires Agree(v, a)
    ensures |Renew(v, a, s, id, ttl, now).0.box.index| <= |v.box.index|
  {
    hide Insert, Without;
    var r := Renew(v, a, s, id, ttl, now);
    if r.1.Renewed? {
      assert Entry(v.claims[id].expiresAt, id) in v.box.index;
      WithoutLength(v.box.index, id);
      InsertLength(Without(v.box.index, id), Entry(r.1.expiresAt, id));
    }
  }

  lemma StepKeepsCeiling(v: View, a: Actor, e: Event, ceiling: int)
    requires Agree(v, a) && Enabled(v, a, e) && |v.box.index| <= ceiling
    requires e.PopBatch? ==> e.request.maxConcurrent == Some(ceiling)
    ensures |Step(v, a, e).box.index| <= ceiling
  {
    hide Sorted, RecoverFirst, BatchClaim, Renew, Without, Insert;
    match e {
      case PopBatch(r) => ClaimKeepsCeiling(v, r, ceiling);
      case Ack(s, id) => WithoutLength(v.box.index, id);
      case Extend(s, id, ttl, now) => RenewKeepsCeiling(v, a, s, id, ttl, now);
      case RecoverExpired(now, blocked) => RecoverFirstShrinks(v, Due(v.box.index, now));
      case _ =>
    }
  }

  /** Under one fixed ceiling the outstanding claims never exceed it, in any run. */
  lemma {:induction false} OutstandingClaimsUnderCeiling(v: View, a: Actor, es: seq<Event>, ceiling: int)
    requires Inv(v, a) && ValidRun(v, a, es) && |v.box.index| <= ceiling && ClaimsUnder(es, ceiling)
    ensures |Run(v, a, es).box.index| <= ceiling
    decreases |es|
  {
    if es != [] {
      assert ClaimsUnder(es[1..], ceiling);
      StepKeepsInv(v, a, es[0]);
      StepKeepsCeiling(v, a, es[0], ceiling);
      OutstandingClaimsUnderCeiling(Step(v, a, es[0]), a, es[1..], ceiling);
    }
  }

  /**
   * What a renewal grants: never to an expired claim, never past the budget.
   * It does not always extend: it moves the expiry to the renew instant plus
   * the ttl, which is no earlier than before if and only if that instant is.
   */
  lemma RenewalGrants(v: View, a: Actor, s: Session, id: ClaimId, ttl: int, now: int)
    requires Inv(v, a) && id in v.claims
    ensures var (w, r) := Renew(v, a, s, id, ttl, now);
            var was := v.claims[id];
            && (r.Renewed? ==>
                  && Owns(v, a, s, id) && now < was.expiresAt
                  && now < r.expiresAt <= was.claimedAt + CLAIM_LIFETIME_BUDGET_SECONDS * 1000
                  && w.claims[id].expiresAt == r.expiresAt && Entry(r.expiresAt, id) in w.box.index
                  && (r.expiresAt >= was.expiresAt <==> now + ttl * 1000 >= was.expiresAt))
            && (!r.Renewed? ==> w == v)
            && (was.expiresAt <= now ==> !r.Renewed?)
  {
    var (w, r) := Renew(v, a, s, id, ttl, now);
    if r.Renewed? { RenewKeepsInv(v, a, s, id, ttl, now); }
  }

  /**
   * A renewal is granted exactly to the owner of a claim that has neither
   * expired nor used up its lifetime; the claim then lasts the ttl from now,
   * or to the end of its lifetime if that comes first, and nothing else of it
   * changes. Otherwise the answer names the first thing wrong.
   */
  lemma RenewalGrantedIff(v: View, a: Actor, s: Session, id: ClaimId, ttl: int, now: int)
    ensures var r := Renew(v, a, s, id, ttl, now).1;
            var valid := !Blank(a) && !Blank(s) && 1 <= ttl <= 3600;
            && (r == InvalidRenewal <==> !valid)
            && (r == NoSuchClaim <==> valid && id !in v.claims)
            && (r == ForeignClaim <==> valid && id in v.claims && !(v.claims[id].actor == a && v.claims[id].session == s))
    ensures var (w, r) := Renew(v, a, s, id, ttl, now);
            !Blank(a) && !Blank(s) && 1 <= ttl <= 3600 && Owns(v, a, s, id) ==>
              var was := v.claims[id];
              var limit := was.claimedAt + CLAIM_LIFETIME_BUDGET_SECONDS * 1000;
              && (r.Renewed? <==> now < was.expiresAt && now < limit)
              && (r == ClaimExpired <==> was.expiresAt <= now)
              && (r == BudgetExceeded <==> limit <= now < was.expiresAt)
              && (r.Renewed? ==>
                    && r.expiresAt == (if now + ttl * 1000 <= limit then now + ttl * 1000 else limit)
                    && w.claims == v.claims[id := was.(expiresAt := r.expiresAt)]
                    && w.box == v.box.(index := w.box.index))
  {
    hide Insert, Without;
  }

  /** Among consistent keys no renewal finds the lifetime used up before the claim has expired. */
  lemma RenewalNeverMeetsSpentBudget(v: View, a: Actor, s: Session, id: ClaimId, ttl: int, now: int)
    requires Inv(v, a)
    ensures Renew(v, a, s, id, ttl, now).1 != BudgetExceeded
    ensures Renew(v, a, s, id, ttl, now).1.Renewed? ==>
              forall e :: e in Renew(v, a, s, id, ttl, now).0.box.index <==>
                (e in v.box.index && e.id != id) || e == Entry(Renew(v, a, s, id, ttl, now).1.expiresAt, id)
  {
    RenewalGrantedIff(v, a, s, id, ttl, now);
    if Renew(v, a, s, id, ttl, now).1.Renewed? {
      assert Sorted(v.box.index);
      hide Inv;
      WithoutKeepsOrder(v.box.index, id);
      InsertKeepsOrder(Without(v.box.index, id), Entry(Renew(v, a, s, id, ttl, now).1.expiresAt, id));
    }
  }

  /** A renewal that shortens: an hour's claim, renewed at once for a second. */
  lemma RenewalCanShorten(a: Actor, s: Session, tasks: seq<Task>)
    requires !Blank(a) && !Blank(s)
    ensures var v := View(map[0 := Claim(a, s, 0, 3600000, tasks)], EmptyBox().(index := [Entry(3600000, 0)]));
            Renew(v, a, s, 0, 1, 0).1 == Renewed(1000)
  {
  }

  // -------------------------------------------------- order, and fresh budgets

  /** While budgets last, recovery puts a claim's tasks back at the end of the inbox in their order. */
  lemma {:induction false} RecoveryKeepsOrder(b: Box, tasks: seq<Task>)
    requires forall m :: Counter(b, m) + Occurrences(tasks, m) <= RECOVER_CAP
    ensures Requeued(b, tasks) == tasks && Quarantined(b, tasks) == []
    decreases |tasks|
  {
    if tasks != [] {
      var c := RecoverTask(b, tasks[0]);
      forall m ensures Counter(c, m) + Occurrences(tasks[1..], m) <= RECOVER_CAP {
        assert Counter(b, m) + Occurrences(tasks, m) <= RECOVER_CAP;
      }
      if CountedId(tasks[0]).Some? {
        var m := CountedId(tasks[0]).value;
        assert Counter(b, m) + Occurrences(tasks, m) <= RECOVER_CAP;
      }
      RecoveryKeepsOrder(c, tasks[1..]);
    }
  }

  /**
   * A claim hands out the head of the inbox, in order, at least one task and
   * at most the batch, after every expired claim has come back; the new claim
   * is its caller's and stands in the index under its expiry.
   */
  lemma ClaimHandsOutTheHead(v: View, r: ClaimRequest)
    requires Inv(v, r.actor) && r.id !in v.claims
    ensures var (w, result) := ClaimTasks(v, r);
            && (result.Claimed? ==>
                  && Recover(v, r.now, r.blocked).box.inbox == result.tasks + w.box.inbox
                  && 1 <= |result.tasks| <= r.maxBatch && (|result.tasks| < r.maxBatch ==> w.box.inbox == [])
                  && w.claims[r.id] == Claim(r.actor, r.session, r.now, r.now + r.ttlSeconds * 1000, result.tasks)
                  && (forall id :: id in w.claims && w.claims[id].actor == r.actor ==> w.claims[id].expiresAt >= r.now))
            && (result.EmptyInbox? ==> w.box.inbox == [])
            && (!result.Claimed? ==> r.id !in w.claims)
  {
    hide Inv, Recover, BatchClaim, Due;
    RecoverLeavesOnlyUnexpired(v, r.actor, r.now, r.blocked);
    RecoverAddsNoClaim(v, r.now, r.blocked);
    var u := Recover(v, r.now, r.blocked);
    var result := ClaimTasks(v, r).1;
    if ValidClaimRequest(r) { BatchHandsOutTheHead(u, r); }
    if result.Claimed? {
      NotBlockedOrNoneDue(v, r);
      IndexedExpiries(u, r.actor, r.now);
    }
  }

  lemma BatchHandsOutTheHead(u: View, r: ClaimRequest)
    requires ValidClaimRequest(r) && r.id !in u.claims
    ensures var (w, result) := BatchClaim(u, r);
            && (result.Claimed? ==>
                  && u.box.inbox == result.tasks + w.box.inbox
                  && 1 <= |result.tasks| <= r.maxBatch && (|result.tasks| < r.maxBatch ==> w.box.inbox == [])
                  && w.claims == u.claims[r.id := Claim(r.actor, r.session, r.now, r.now + r.ttlSeconds * 1000, result.tasks)])
            && (result.EmptyInbox? ==> w.box.inbox == [])
            && (!result.Claimed? ==> w == u)
            && (result.Claimed? || result.EmptyInbox? || result.LimitReached?)
  {
    hide Insert;
  }

  /** Which answer a claim gets, and how much it takes. */
  lemma ClaimAnswers(v: View, r: ClaimRequest)
    requires Inv(v, r.actor)
    ensures var result := ClaimTasks(v, r).1;
            var valid := !Blank(r.actor) && !Blank(r.session) && 1 <= r.maxBatch <= 16 && 1 <= r.ttlSeconds <= 3600 &&
                         (r.maxConcurrent.Some? ==> r.maxConcurrent.value >= 1);
            var u := Recover(v, r.now, r.blocked);
            var refused := r.blocked && exists e :: e in v.box.index && e.score < r.now;
            var full := r.maxConcurrent.Some? && |u.box.index| >= r.maxConcurrent.value;
            && (result == InvalidRequest <==> !valid)
            && (result == StoreCorrupt <==> valid && refused)
            && (result == LimitReached <==> valid && !refused && full)
            && (result == EmptyInbox <==> valid && !refused && !full && u.box.inbox == [])
            && (result.Claimed? ==> |result.tasks| == if |u.box.inbox| < r.maxBatch then |u.box.inbox| else r.maxBatch)
  {
    assert Sorted(v.box.index);
    DueIffExpired(v.box.index, r.now);
    hide Inv, Recover, Due, Insert, Sorted;
  }

  lemma DueIffExpired(s: seq<Entry>, now: int)
    requires Sorted(s)
    ensures Due(s, now) > 0 <==> exists e :: e in s && e.score < now
  {
    DueIsExactlyTheExpired(s, now);
    assert s[0..] == s;
    if Due(s, now) > 0 { assert s[0] in s && s[0].score < now; }
  }

  // ------------------------------------------------ the simple queue operations

  /** A send is accepted exactly below the bound, and goes to the end of the inbox. */
  lemma SendAppendsBelowBound(v: View, t: Task, bound: nat)
    ensures var w := Send(v, t, bound);
            && w.claims == v.claims && w.box.dlq == v.box.dlq && w.box.index == v.box.index && w.box.counters == v.box.counters
            && w.box.inbox == if |v.box.inbox| < bound then v.box.inbox + [t] else v.box.inbox
  {
  }

  /** A receive pops the oldest payload, and then returns it, or parks it before all dead letters. */
  lemma ReceiveTakesTheOldest(v: View, a: Actor)
    requires Inv(v, a) && v.box.inbox != []
    ensures var k, t, w := v.box.ledger.receives, v.box.inbox[0], Pop(v);
            && HandTask(w.box, k) == Some(t) && v.box.inbox == [t] + w.box.inbox
            && w.box.dlq == v.box.dlq && w.claims == v.claims && w.box.index == v.box.index && w.box.counters == v.box.counters
            && Return(w, k).box.inbox == w.box.inbox && Return(w, k).box.dlq == w.box.dlq
            && Return(w, k).box.ledger == v.box.ledger.(receives := k + 1, received := v.box.ledger.received + multiset{t})
            && Park(w, k).box.inbox == w.box.inbox && HandTask(Park(w, k).box, k) == None
            && (t == Park(w, k).box.dlq[0] && forall i :: 0 < i < |Park(w, k).box.dlq| ==> Park(w, k).box.dlq[i] == v.box.dlq[i - 1])
            && |Park(w, k).box.dlq| == if |v.box.dlq| < DLQ_MAX_LENGTH then |v.box.dlq| + 1 else DLQ_MAX_LENGTH
  {
    var k, t := v.box.ledger.receives, v.box.inbox[0];
    assert Bounded(v.box);
    PopTakesTheOldest(v);
    hide Inv, Pop;
    EndOfReceive(Pop(v), k, v.box.ledger.hands, t);
    assert Pop(v).box.ledger.(hands := v.box.ledger.hands) == v.box.ledger.(receives := k + 1);
  }

  lemma PopTakesTheOldest(v: View)
    requires HandsInOrder(v.box.ledger) && v.box.inbox != []
    ensures var k, t, w := v.box.ledger.receives, v.box.inbox[0], Pop(v);
            && HandTask(w.box, k) == Some(t) && v.box.inbox == [t] + w.box.inbox
            && w == v.(box := v.box.(inbox := w.box.inbox, ledger := w.box.ledger))
            && w.box.ledger == v.box.ledger.(receives := k + 1, hands := w.box.ledger.hands)
            && H.Drop(w.box.ledger.hands, k) == v.box.ledger.hands && H.TaskOf(v.box.ledger.hands, k) == None
  {
    H.NewestTask(v.box.ledger.hands, 0, v.box.ledger.receives, v.box.inbox[0]);
    H.InOrderBounds(v.box.ledger.hands, 0, v.box.ledger.receives, v.box.ledger.receives);
  }

  lemma EndOfReceive(w: View, k: nat, before: seq<H.InHand<Task>>, t: Task)
    requires HandTask(w.box, k) == Some(t) && H.Drop(w.box.ledger.hands, k) == before && H.TaskOf(before, k) == None
    requires |w.box.dlq| <= DLQ_MAX_LENGTH
    ensures Return(w, k).box.inbox == w.box.inbox && Return(w, k).box.dlq == w.box.dlq
    ensures Return(w, k).box.ledger == w.box.ledger.(hands := before, received := w.box.ledger.received + multiset{t})
    ensures Park(w, k).box.inbox == w.box.inbox && HandTask(Park(w, k).box, k) == None
    ensures |Park(w, k).box.dlq| == if |w.box.dlq| < DLQ_MAX_LENGTH then |w.box.dlq| + 1 else DLQ_MAX_LENGTH
    ensures t == Park(w, k).box.dlq[0] && forall i :: 0 < i < |Park(w, k).box.dlq| ==> Park(w, k).box.dlq[i] == w.box.dlq[i - 1]
  {
    DeadLettersKeepTheNewest(OutOfHand(w.box, k), [t]);
    PushDeadKeepsRest(OutOfHand(w.box, k), [t]);
    hide PushDead;
  }

  lemma PushDeadKeepsRest(b: Box, tasks: seq<Task>)
    ensures var c := PushDead(b, tasks);
            c == b.(dlq := c.dlq, ledger := b.ledger.(trimmed := c.ledger.trimmed))
  {
  }

  /** New dead letters go before the old ones, and beyond the bound the oldest are cut off. */
  lemma DeadLettersKeepTheNewest(b: Box, tasks: seq<Task>)
    ensures var c, all := PushDead(b, tasks), tasks + b.dlq;
            && |c.dlq| == (if |all| <= DLQ_MAX_LENGTH then |all| else DLQ_MAX_LENGTH)
            && c.dlq == all[..|c.dlq|] && c.ledger.trimmed == b.ledger.trimmed + multiset(all[|c.dlq|..])
  {
    var all := tasks + b.dlq;
    assert all == all[..|all|];
    if |all| <= DLQ_MAX_LENGTH { assert all[|all|..] == []; }
  }

  /** Unregistration leaves no payload, no claim of the actor's and no counter of one of its claimed or dead-lettered tasks; nothing of anybody else's goes. */
  lemma PurgeLeavesNothing(v: View, a: Actor, m: MessageId, id: ClaimId)
    requires Inv(v, a)
    ensures var w := Purge(v);
            var tracked := (exists t :: t in v.box.dlq && CountedId(t) == Some(m)) ||
                           (exists c, t :: c in v.claims && v.claims[c].actor == a && t in v.claims[c].tasks && CountedId(t) == Some(m));
            && w.box.inbox == [] && w.box.index == [] && w.box.dlq == []
            && (id in w.claims <==> id in v.claims && v.claims[id].actor != a)
            && (id in w.claims ==> w.claims[id] == v.claims[id])
            && Counter(w.box, m) == if tracked then 0 else Counter(v.box, m)
  {
    hide Conserved, Held, Bounded, WithinBudget;
    assert Agree(v, a);
    if id in v.claims && v.claims[id].actor == a { assert Entry(v.claims[id].expiresAt, id) in v.box.index; }
    forall c, t | c in v.claims && v.claims[c].actor == a && t in v.claims[c].tasks && CountedId(t) == Some(m)
      ensures m in TrackedIds(v)
    {
      assert Entry(v.claims[c].expiresAt, c) in v.box.index;
      assert c in Ids(v.box.index) && t in TasksOf(v.claims, c);
    }
    if m in TrackedIds(v) {
      if t :| t in v.box.dlq && CountedId(t) == Some(m) {
      } else {
        var c, t :| c in Ids(v.box.index) && t in TasksOf(v.claims, c) && CountedId(t) == Some(m);
        assert c in v.claims && v.claims[c].actor == a && t in v.claims[c].tasks;
      }
    }
  }

  lemma IndexedExpiries(u: View, a: Actor, now: int)
    requires Inv(u, a) && forall e :: e in u.box.index ==> e.score >= now
    ensures forall id :: id in u.claims && u.claims[id].actor == a ==> u.claims[id].expiresAt >= now
  {
    hide Conserved, Held;
    forall id | id in u.claims && u.claims[id].actor == a ensures u.claims[id].expiresAt >= now {
      assert Entry(u.claims[id].expiresAt, id) in u.box.index;
    }
  }

  /** A claim that gets past recovery leaves no expired claim in the index. */
  lemma NotBlockedOrNoneDue(v: View, r: ClaimRequest)
    requires Inv(v, r.actor) && ClaimTasks(v, r).1.Claimed?
    ensures forall e :: e in Recover(v, r.now, r.blocked).box.index ==> e.score >= r.now
  {
    RecoverLeavesOnlyUnexpired(v, r.actor, r.now, r.blocked);
    if r.blocked {
      assert Sorted(v.box.index);
      DueIsExactlyTheExpired(v.box.index, r.now);
      assert v.box.index[0..] == v.box.index;
    }
  }

  /** Only the owner's acknowledgement ends a claim: its tasks are settled, and their ids start afresh. */
  lemma AcknowledgeSettlesTheBatch(v: View, a: Actor, session: Session, id: ClaimId, m: MessageId)
    requires Inv(v, a)
    ensures var (w, result) := Acknowledge(v, a, session, id);
            && (result.Acknowledged? <==> Owns(v, a, session, id))
            && (result == UnknownClaim <==> id !in v.claims)
            && (!result.Acknowledged? ==> w == v)
            && (result.Acknowledged? ==>
                  var tasks := v.claims[id].tasks;
                  && result.count == |tasks| && w.claims == v.claims - {id}
                  && (forall e :: e in w.box.index <==> e in v.box.index && e.id != id)
                  && w.box.inbox == v.box.inbox && w.box.dlq == v.box.dlq
                  && w.box.ledger.acked == v.box.ledger.acked + multiset(tasks)
                  && Counter(w.box, m) == if exists t :: t in tasks && CountedId(t) == Some(m) then 0 else Counter(v.box, m))
  {
    if Owns(v, a, session, id) {
      assert Sorted(v.box.index);
      hide Inv;
      WithoutKeepsOrder(v.box.index, id);
      ClearCountersKeeps(v.box.counters, v.claims[id].tasks);
    }
  }

  /** Requeue takes the newest dead letter with the id to the end of the inbox, with a fresh budget. */
  lemma RequeueRedrivesTheNewest(v: View, m: MessageId)
    ensures var n, w := FindDead(v.box.dlq, m), Requeue(v, m);
            && (w == v <==> forall t :: t in v.box.dlq ==> !(t.Envelope? && t.id == Some(m)))
            && (n < |v.box.dlq| ==>
                  && v.box.dlq[n].Envelope? && v.box.dlq[n].id == Some(m)
                  && (forall i :: 0 <= i < n ==> !(v.box.dlq[i].Envelope? && v.box.dlq[i].id == Some(m)))
                  && w.box.inbox == v.box.inbox + [v.box.dlq[n]]
                  && w.box.dlq == v.box.dlq[..n] + v.box.dlq[n + 1..] && w.claims == v.claims && w.box.index == v.box.index
                  && Counter(w.box, m) == 0 && forall o :: o != m ==> Counter(w.box, o) == Counter(v.box, o))
  {
    FirstDead(v.box.dlq, m);
  }

  lemma {:induction false} FirstDead(dlq: seq<Task>, m: MessageId)
    ensures forall i :: 0 <= i < FindDead(dlq, m) ==> !(dlq[i].Envelope? && dlq[i].id == Some(m))
    ensures FindDead(dlq, m) < |dlq| ==> exists t :: t in dlq && t.Envelope? && t.id == Some(m)
  {
    if dlq != [] && !(dlq[0].Envelope? && dlq[0].id == Some(m)) {
      FirstDead(dlq[1..], m);
      forall i | 0 < i < FindDead(dlq, m) ensures !(dlq[i].Envelope? && dlq[i].id == Some(m)) {
        assert dlq[i] == dlq[1..][i - 1];
      }
    }
  }
}
