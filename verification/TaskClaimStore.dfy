/**
 * The claim scripts as Redis runs them for one actor: loops over the actor's
 * keys, each proved equal to the script's specification in Claims.
 */
module TaskClaimStore {
  import opened Options
  import opened Claims
  import H = Receives

  class ActorKeys {
    var claims: map<ClaimId, Claim>
    var inbox: seq<Task>
    var index: seq<Entry>
    var dlq: seq<Task>
    var counters: map<MessageId, nat>
    ghost var ledger: Ledger

    ghost function State(): View
      reads this
    {
      View(claims, Box(inbox, index, dlq, counters, ledger))
    }

    constructor ()
      ensures State() == View(map[], EmptyBox())
      ensures forall a :: Inv(State(), a)
    {
      claims, inbox, index, dlq, counters := map[], [], [], [], map[];
      ledger := EmptyBox().ledger;
    }

    /** LPUSH of one task, then LTRIM to the bound. */
    method Quarantine(t: Task)
      modifies this
      ensures State() == old(State()).(box := PushDead(old(State()).box, [t]))
    {
      ghost var all := [t] + dlq;
      dlq := [t] + dlq;
      if |dlq| > DLQ_MAX_LENGTH {
        dlq := dlq[..DLQ_MAX_LENGTH];
      }
      ledger := ledger.(trimmed := ledger.trimmed + multiset(Trimmed(all)));
    }

    method RecoverOne(t: Task)
      modifies this
      ensures State() == old(State()).(box := RecoverTask(old(State()).box, t))
    {
      var key := CountedId(t);
      if key == None {
        inbox := inbox + [t];
        return;
      }
      var count := (if key.value in counters then counters[key.value] else 0) + 1;
      if count > RECOVER_CAP {
        Quarantine(t);
        counters := counters - {key.value};
      } else {
        counters := counters[key.value := count];
        inbox := inbox + [t];
      }
    }

    /** claims-recover.lua: a read-only pass decides whether to refuse, then the moves. */
    method RecoverExpired(now: int, blocked: bool) returns (refused: bool)
      modifies this
      ensures State() == Recover(old(State()), now, blocked)
      ensures refused <==> blocked && Due(old(State()).box.index, now) > 0
    {
      var n := Due(index, now);
      if blocked {
        return n > 0;
      }
      ghost var end := RecoverFirst(State(), n);
      var i := 0;
      while i < n
        invariant 0 <= i <= n && n - i <= |index|
        invariant RecoverFirst(State(), n - i) == end
      {
        ghost var before := State();
        var id := index[0].id;
        var tasks := if id in claims then claims[id].tasks else [];
        claims := claims - {id};
        index := index[1..];
        ghost var box := State().box;
        assert RecoverFirst(before, n - i) == RecoverFirst(View(claims, RecoverTasks(box, tasks)), n - i - 1);
        RecoverAll(tasks);
        i := i + 1;
      }
      return false;
    }

    method RecoverAll(tasks: seq<Task>)
      modifies this
      ensures State() == old(State()).(box := RecoverTasks(old(State()).box, tasks))
      ensures index == old(index)
    {
      ghost var end := RecoverTasks(State().box, tasks);
      var i := 0;
      while i < |tasks|
        invariant 0 <= i <= |tasks| && claims == old(claims) && index == old(index)
        invariant RecoverTasks(State().box, tasks[i..]) == end
      {
        assert tasks[i..][1..] == tasks[i + 1..];
        RecoverOne(tasks[i]);
        i := i + 1;
      }
    }

    /** claims-batch-claim.lua: the ceiling first, then pops up to the batch size. */
    method PopBatch(r: ClaimRequest) returns (result: ClaimResult)
      requires ValidClaimRequest(r)
      modifies this
      ensures (State(), result) == BatchClaim(old(State()), r)
    {
      if r.maxConcurrent.Some? && |index| >= r.maxConcurrent.value {
        return LimitReached;
      }
      var tasks: seq<Task> := [];
      var i := 0;
      while i < r.maxBatch && inbox != []
        invariant 0 <= i <= r.maxBatch && i == |tasks| <= |old(inbox)|
        invariant tasks == old(inbox)[..i] && inbox == old(inbox)[i..]
        invariant State() == old(State()).(box := old(State()).box.(inbox := inbox))
      {
        tasks := tasks + [inbox[0]];
        inbox := inbox[1..];
        i := i + 1;
      }
      if tasks == [] {
        return EmptyInbox;
      }
      assert i == Min(r.maxBatch, |old(inbox)|);
      var expires := r.now + r.ttlSeconds * 1000;
      claims := claims[r.id := Claim(r.actor, r.session, r.now, expires, tasks)];
      index := Insert(index, Entry(expires, r.id));
      return Claimed(tasks);
    }

    /**
     * claim(): validation, lazy recovery, then the batch script. The two
     * scripts are two calls; others is what the keys have become in between,
     * if other clients were at work.
     */
    method ClaimTasks(r: ClaimRequest, others: Option<View>) returns (result: ClaimResult)
      requires Inv(State(), r.actor) && r.id !in claims
      requires others.Some? ==> Inv(others.value, r.actor) && r.id !in others.value.claims
      modifies this
      ensures Inv(State(), r.actor)
      ensures others == None ==> (State(), result) == Claims.ClaimTasks(old(State()), r)
      ensures result == InvalidRequest <==> !ValidClaimRequest(r)
      ensures result == StoreCorrupt <==> ValidClaimRequest(r) && r.blocked && Due(old(index), r.now) > 0
      ensures result == InvalidRequest || result == StoreCorrupt ==> State() == old(State())
      ensures others.Some? && result != InvalidRequest && result != StoreCorrupt ==>
                (State(), result) == BatchClaim(others.value, r)
    {
      if !ValidClaimRequest(r) {
        return InvalidRequest;
      }
      hide Inv, BatchClaim, Recover, ValidClaimRequest;
      RecoverLeavesOnlyUnexpired(State(), r.actor, r.now, r.blocked);
      RecoverAddsNoClaim(State(), r.now, r.blocked);
      RefusedMeansUnchanged(State(), r);
      var refused := RecoverExpired(r.now, r.blocked);
      if refused {
        return StoreCorrupt;
      }
      if others.Some? { Become(others.value); }
      BatchClaimKeepsInv(State(), r);
      BatchClaimAnswers(State(), r);
      result := PopBatch(r);
    }

    /** Other clients leave the keys so. */
    method Become(v: View)
      modifies this
      ensures State() == v
    {
      claims := v.claims;
      inbox, index, dlq, counters, ledger := v.box.inbox, v.box.index, v.box.dlq, v.box.counters, v.box.ledger;
    }

    /**
     * receive(), once its pop has something: report the depth and return the
     * payload, or park what cannot be decoded. fails: it throws, dies or loses
     * a reply before it has returned the payload or parked it.
     */
    method Receive(fails: bool) returns (received: Option<Task>)
      requires inbox != [] && HandsInOrder(ledger)
      modifies this
      ensures HandsInOrder(ledger)
      ensures var k, t, popped := old(ledger.receives), old(inbox)[0], Pop(old(State()));
              && received == (if fails || t.Undecodable? then None else Some(t))
              && State() == if fails then popped else if t.Undecodable? then Park(popped, k) else Return(popped, k)
    {
      var t := inbox[0];
      ghost var k, h := ledger.receives, ledger.hands;
      inbox := inbox[1..];
      ledger := ledger.(hands := h + [H.InHand(k, t)], receives := k + 1);
      ghost var popped := State();
      assert popped == Pop(old(State()));
      H.NewestTask(h, 0, k, t);
      H.BeginsInOrder(h, 0, k, t);
      if fails { return None; }
      H.Lower(h, 0, 0, k, k + 1);
      ghost var b := OutOfHand(popped.box, k);
      ledger := b.ledger;
      if t.Undecodable? {
        Quarantine(t);
        return None;
      }
      ledger := ledger.(received := ledger.received + multiset{t});
      return Some(t);
    }

    /** claims-ack.lua. */
    method Acknowledge(actor: Actor, session: Session, id: ClaimId) returns (result: AckResult)
      modifies this
      ensures (State(), result) == Claims.Acknowledge(old(State()), actor, session, id)
    {
      if id !in claims {
        return UnknownClaim;
      }
      var claim := claims[id];
      if claim.actor != actor || claim.session != session {
        return NotClaimOwner;
      }
      claims := claims - {id};
      index := Without(index, id);
      var i := 0;
      while i < |claim.tasks|
        invariant 0 <= i <= |claim.tasks|
        invariant ClearCounters(counters, claim.tasks[i..]) == ClearCounters(old(counters), claim.tasks)
        invariant State() == View(old(claims) - {id},
                    old(State()).box.(index := Without(old(index), id), counters := counters))
      {
        assert claim.tasks[i..][1..] == claim.tasks[i + 1..];
        var key := CountedId(claim.tasks[i]);
        if key.Some? {
          counters := counters - {key.value};
        }
        i := i + 1;
      }
      ledger := ledger.(acked := ledger.acked + multiset(claim.tasks));
      return Acknowledged(|claim.tasks|);
    }

    /** claims-renew.lua. */
    method RenewClaim(actor: Actor, session: Session, id: ClaimId, ttlSeconds: int, now: int)
      returns (result: RenewResult)
      modifies this
      ensures (State(), result) == Renew(old(State()), actor, session, id, ttlSeconds, now)
    {
      if Blank(actor) || Blank(session) || ttlSeconds < 1 || ttlSeconds > 3600 { return InvalidRenewal; }
      if id !in claims { return NoSuchClaim; }
      var claim := claims[id];
      if claim.actor != actor || claim.session != session { return ForeignClaim; }
      if claim.expiresAt <= now { return ClaimExpired; }
      var expires := now + ttlSeconds * 1000;
      var cap := claim.claimedAt + CLAIM_LIFETIME_BUDGET_SECONDS * 1000;
      if expires > cap { expires := cap; }
      if expires <= now { return BudgetExceeded; }
      claims := claims[id := claim.(expiresAt := expires)];
      index := Insert(Without(index, id), Entry(expires, id));
      return Renewed(expires);
    }

    /** claims-requeue.lua: scans from the newest entry, pushes before removing. */
    method RequeueDead(m: MessageId) returns (moved: bool)
      modifies this
      ensures State() == Requeue(old(State()), m)
      ensures moved <==> exists t :: t in old(dlq) && t.Envelope? && t.id == Some(m)
    {
      var i := 0;
      while i < |dlq|
        invariant 0 <= i <= |dlq| && State() == old(State())
        invariant forall j :: 0 <= j < i ==> !(dlq[j].Envelope? && dlq[j].id == Some(m))
      {
        if dlq[i].Envelope? && dlq[i].id == Some(m) {
          FindDeadAt(dlq, m, i);
          inbox := inbox + [dlq[i]];
          dlq := dlq[..i] + dlq[i + 1..];
          counters := counters - {m};
          return true;
        }
        i := i + 1;
      }
      FindDeadAt(dlq, m, i);
      return false;
    }
  }

  lemma {:induction false} FindDeadAt(dlq: seq<Task>, m: MessageId, n: nat)
    requires n <= |dlq| && forall j :: 0 <= j < n ==> !(dlq[j].Envelope? && dlq[j].id == Some(m))
    requires n < |dlq| ==> dlq[n].Envelope? && dlq[n].id == Some(m)
    ensures FindDead(dlq, m) == n
  {
    if n > 0 { FindDeadAt(dlq[1..], m, n - 1); }
  }

  lemma RefusedMeansUnchanged(v: View, r: ClaimRequest)
    requires ValidClaimRequest(r)
    ensures r.blocked ==> Recover(v, r.now, r.blocked) == v
    ensures Claims.ClaimTasks(v, r) ==
            if r.blocked && Due(v.box.index, r.now) > 0 then (v, StoreCorrupt) else BatchClaim(Recover(v, r.now, r.blocked), r)
  {
  }

  lemma BatchClaimAnswers(v: View, r: ClaimRequest)
    requires ValidClaimRequest(r)
    ensures BatchClaim(v, r).1 != InvalidRequest && BatchClaim(v, r).1 != StoreCorrupt
  {
  }
}
