/**
 * register() under a new name (src/mcp-server/redis-client.ts:204-323): create
 * the new session, move the mailbox, retire the old identity; or roll back.
 * Every Redis call can fail, before its effect or after it. A crash leaves
 * what is left when every later call fails without effect.
 */
module Rename {
  import opened Options
  import R = Registry
  import I = Identity
  import C = Claims
  import M = Mailboxes

  /** Failed: no effect. ReplyLost: the effect, and then an error all the same. */
  datatype Fault = Fine | Failed | ReplyLost

  /** One fault for each call, in the order the calls are made. */
  datatype Faults = Faults(
    prune: Fault, create: Fault, write: Fault, cleanup: Fault, recover: Fault, migrate: Fault,
    closeRead: Fault, closeDelete: Fault, closeLeave: Fault, undo: Fault,
    oldRead: Fault, oldDelete: Fault, oldLeave: Fault, oldEntry: Fault, publish: Fault)

  predicate Acts(f: Fault) {
    f != Failed
  }

  predicate Heard(f: Fault) {
    f == Fine
  }

  /**
   * between: what other clients do to the mailboxes between recovery and
   * transfer. later: a completed value somebody else publishes for the new
   * name before the rollback.
   */
  datatype Request = Request(
    name: string, sid: I.Sid, provisional: R.Value, completed: R.Value,
    between: seq<M.StoreEvent>, later: Option<R.Value>, now: int, blocked: bool)

  /** The keys, and the two fields of the client. */
  datatype World = World(
    hashes: R.Hashes, sess: I.Sessions, store: M.Store, agent: string, session: I.Sid)

  /** Before: the transfer has not been reported complete. After: a later call failed, or the new name is empty. */
  datatype End = Renamed | FailedBefore | FailedAfter

  function Recovered(w: World, r: Request): M.Store {
    M.WithView(w.store, w.agent, C.Recover(M.ViewOf(w.store, w.agent), r.now, r.blocked))
  }

  function Meanwhile(s: M.Store, r: Request): M.Store {
    if M.ValidStoreRun(s, r.between) then M.StoreRun(s, r.between) else s
  }

  /** The mailboxes as the transfer meets them. */
  function Met(w: World, r: Request): M.Store {
    Meanwhile(Recovered(w, r), r)
  }

  /** A recovery that cannot place its tasks changes nothing, and says so. */
  predicate RecoveryRefused(w: World, r: Request) {
    r.blocked && C.Due(M.BoxOf(w.store, w.agent).index, r.now) > 0
  }

  /** closeSession: the sessions it leaves, and whether every call was heard. */
  function Close(x: I.Sessions, sid: I.Sid, read: Fault, delete: Fault, leave: Fault): (I.Sessions, bool) {
    if !Heard(read) then (x, false)
    else if sid !in x.records || x.records[sid] == "" then (x, true)
    else
      var agent := x.records[sid];
      var dropped := if Acts(delete) then I.Drop(x, sid) else x;
      if !Heard(delete) then (dropped, false)
      else (if Acts(leave) then I.Leave(dropped, agent, sid) else dropped, Heard(leave))
  }

  /** Undo the session and the registry entry of a failed rename. */
  function RollBack(w: World, r: Request, f: Faults): World {
    var hashes := if r.later.Some? then R.Publish(w.hashes, r.name, r.later.value) else w.hashes;
    w.(sess := Close(w.sess, r.sid, f.closeRead, f.closeDelete, f.closeLeave).0,
       hashes := if Acts(f.undo) then R.UndoWrite(hashes, r.name, r.provisional) else hashes)
  }

  /** createSession; None: it failed. */
  function CreateSession(w: World, r: Request, f: Faults): (World, bool) {
    var w1 := if Acts(f.prune) then w.(sess := I.Prune(w.sess, r.name)) else w;
    if !Heard(f.prune) then (w1, false) else
    var w2 := if Acts(f.create) then w1.(sess := I.Create(w1.sess, r.sid, r.name)) else w1;
    if !Heard(f.create) then (w2, false) else
    var w3 := if Acts(f.write) then w2.(hashes := R.WriteProvisional(w2.hashes, r.name, r.provisional)) else w2;
    if Heard(f.write) then (w3, true)
    else (if Acts(f.cleanup) then w3.(sess := I.Leave(I.Drop(w3.sess, r.sid), r.name, r.sid)) else w3, false)
  }

  /** Recovery and transfer: the store they leave, and whether the transfer is known to be complete. */
  function Transfer(w: World, r: Request, f: Faults): (M.Store, bool) {
    var s1 := if Acts(f.recover) then Recovered(w, r) else w.store;
    if !Heard(f.recover) || RecoveryRefused(w, r) then (s1, false) else
    var s2 := Meanwhile(s1, r);
    var (s3, moved) := M.Migrate(s2, w.agent, r.name);
    (if Acts(f.migrate) then s3 else s2, Heard(f.migrate) && moved.Some?)
  }

  /** Best effort: its failures are swallowed. */
  function RetireOld(w: World, f: Faults): World {
    w.(sess := Close(w.sess, w.session, f.oldRead, f.oldDelete, f.oldLeave).0,
       hashes := if Acts(f.oldEntry) then R.Retire(w.hashes, w.agent) else w.hashes)
  }

  function Register(w: World, r: Request, f: Faults): (World, End) {
    var (w1, created) := CreateSession(w, r, f);
    if !created then (w1, FailedBefore) else
    var (store, moved) := Transfer(w1, r, f);
    var w2 := w1.(store := store);
    if !moved then (RollBack(w2, r, f), FailedBefore) else
    var w3 := RetireOld(w2, f).(agent := r.name, session := r.sid);
    (if Acts(f.publish) then w3.(hashes := R.Publish(w3.hashes, r.name, r.completed)) else w3,
     if Heard(f.publish) && r.name != "" then Renamed else FailedAfter)
  }

  /** A registered client that asks for another name. */
  ghost predicate Renaming(w: World, r: Request) {
    && r.name != w.agent && w.agent != ""
    && I.SessionsOk(w.sess) && M.StoreInv(w.store)
    && r.sid !in w.sess.born && w.session != r.sid
    && Lookup(w.sess.records, w.session) == Some(w.agent) && w.session in w.sess.leases
    && r.provisional.Provisional? && r.completed.Completed? && (r.later.Some? ==> r.later.value.Completed?)
  }

  // ---------------------------------------------------------------- failure

  /** The transfer happened, but its reply was lost. */
  predicate TransferUnheard(w: World, r: Request, f: Faults) {
    && Heard(f.prune) && Heard(f.create) && Heard(f.write) && Heard(f.recover)
    && !RecoveryRefused(w, r) && f.migrate == ReplyLost
    && M.BoxOf(Met(w, r), w.agent).index == []
  }

  /** Pruning the new name spares a session of another name. */
  lemma PruneSpares(x: I.Sessions, name: string, sid: I.Sid, agent: string)
    requires I.SessionsOk(x) && Lookup(x.records, sid) == Some(agent) && sid in x.leases && agent != name
    ensures var y := I.Prune(x, name);
            I.SessionsOk(y) && y.born == x.born && Lookup(y.records, sid) == Some(agent) && sid in y.leases
  {
    I.PruneOk(x, name);
    I.PruneRemovesExactlyTheExpired(x, name, sid);
  }

  lemma CreateThenClean(x: I.Sessions, sid: I.Sid, name: string, other: I.Sid)
    requires I.SessionsOk(x) && sid !in x.born && other != sid
    ensures var y := I.Create(x, sid, name);
            var z := I.Leave(I.Drop(y, sid), name, sid);
            && I.SessionsOk(y) && I.SessionsOk(z)
            && Lookup(y.records, sid) == Some(name) && sid in y.leases
            && Lookup(y.records, other) == Lookup(x.records, other) && (other in y.leases <==> other in x.leases)
            && Lookup(z.records, other) == Lookup(x.records, other) && (other in z.leases <==> other in x.leases)
  {
    I.CreateOk(x, sid, name);
    I.DropAndLeaveOk(I.Create(x, sid, name), name, sid);
  }

  /** The four states creation can leave the sessions in. */
  lemma CreationLeavesOneOf(w: World, r: Request, f: Faults)
    ensures var (w1, created) := CreateSession(w, r, f);
            var pruned := I.Prune(w.sess, r.name);
            var added := I.Create(pruned, r.sid, r.name);
            && w1.agent == w.agent && w1.session == w.session && w1.store == w.store
            && w1.sess in {w.sess, pruned, added, I.Leave(I.Drop(added, r.sid), r.name, r.sid)}
            && (created ==> w1.sess == added && w1.hashes == R.WriteProvisional(w.hashes, r.name, r.provisional))
  {
    hide I.Prune, I.Create, I.Drop, I.Leave, R.WriteProvisional;
  }

  lemma OldSessionSurvivesCreation(w: World, r: Request, f: Faults)
    requires Renaming(w, r)
    ensures var w1 := CreateSession(w, r, f).0;
            && I.SessionsOk(w1.sess)
            && w1.agent == w.agent && w1.session == w.session && w1.store == w.store
            && Lookup(w1.sess.records, w.session) == Some(w.agent) && w.session in w1.sess.leases
            && (CreateSession(w, r, f).1 ==>
                  && Lookup(w1.sess.records, r.sid) == Some(r.name) && r.sid in w1.sess.leases
                  && w1.hashes == R.WriteProvisional(w.hashes, r.name, r.provisional))
  {
    PruneSpares(w.sess, r.name, w.session, w.agent);
    CreateThenClean(I.Prune(w.sess, r.name), r.sid, r.name, w.session);
    CreationLeavesOneOf(w, r, f);
    hide CreateSession, I.Prune, I.Create, I.Drop, I.Leave, I.SessionsOk, R.WriteProvisional, M.StoreInv;
  }

  lemma RollBackSpares(w: World, r: Request, f: Faults, other: I.Sid)
    requires other != r.sid
    ensures var w' := RollBack(w, r, f);
            && w'.store == w.store && w'.agent == w.agent && w'.session == w.session
            && Lookup(w'.sess.records, other) == Lookup(w.sess.records, other)
            && (other in w'.sess.leases <==> other in w.sess.leases)
  {
  }

  /**
   * A rename that fails before its transfer is reported leaves the client and
   * the old session as they were, and the mailboxes too, but for one recovery
   * of the old name's expired claims and what others did; exactly unless the
   * transfer happened and only its reply was lost: then all has moved.
   */
  lemma FailedRenameKeepsTheOldName(w: World, r: Request, f: Faults)
    requires Renaming(w, r) && Register(w, r, f).1 == FailedBefore
    ensures var w' := Register(w, r, f).0;
            && w'.agent == w.agent && w'.session == w.session
            && Lookup(w'.sess.records, w.session) == Some(w.agent) && w.session in w'.sess.leases
            && (!TransferUnheard(w, r, f) ==> w'.store == w.store || w'.store == Recovered(w, r) || w'.store == Met(w, r))
            && (TransferUnheard(w, r, f) ==> w'.store == M.Migrate(Met(w, r), w.agent, r.name).0)
  {
    OldSessionSurvivesCreation(w, r, f);
    var (w1, created) := CreateSession(w, r, f);
    hide CreateSession, RollBack, I.SessionsOk, M.StoreInv, Meanwhile;
    if created {
      assert Recovered(w1, r) == Recovered(w, r) && (RecoveryRefused(w1, r) <==> RecoveryRefused(w, r));
      RollBackSpares(w1.(store := Transfer(w1, r, f).0), r, f, w.session);
      CreatedMeansHeard(w, r, f);
    } else {
      CreatedMeansHeard(w, r, f);
    }
  }

  lemma CreatedMeansHeard(w: World, r: Request, f: Faults)
    ensures CreateSession(w, r, f).1 <==> Heard(f.prune) && Heard(f.create) && Heard(f.write)
  {
  }

  /** The last completed value of a name: under a provisional one, what it would restore. */
  function LastCompleted(h: R.Hashes, n: string): Option<R.Value> {
    if R.OnTop(h, n) then Lookup(h.restore, n) else Lookup(h.registry, n)
  }

  lemma UndoAfterWrite(h: R.Hashes, r: Request)
    requires r.provisional.Provisional? && (r.later.Some? ==> r.later.value.Completed?)
    ensures var written := R.WriteProvisional(h, r.name, r.provisional);
            var met := if r.later.Some? then R.Publish(written, r.name, r.later.value) else written;
            var undone := R.UndoWrite(met, r.name, r.provisional);
            && Lookup(met.registry, r.name) == (if r.later.Some? then r.later else Some(r.provisional))
            && Lookup(undone.registry, r.name) == (if r.later.Some? then r.later else LastCompleted(h, r.name))
            && forall n :: n != r.name ==>
                 Lookup(undone.registry, n) == Lookup(h.registry, n) && Lookup(met.registry, n) == Lookup(h.registry, n)
  {
  }

  /**
   * The provisional entry is left behind: its write happened and only the
   * reply was lost, for nothing then undoes it; or the undo itself never
   * reached the registry, and nobody has published over it.
   */
  predicate EntryLeft(r: Request, f: Faults) {
    Heard(f.prune) && Heard(f.create) &&
    (f.write == ReplyLost || (Heard(f.write) && !Acts(f.undo) && r.later == None))
  }

  /**
   * Whatever call fails, a rename that fails before its transfer is reported
   * leaves the new name showing its provisional entry exactly in the cases of
   * EntryLeft; otherwise the name shows what it did, its last completed value,
   * or what was published meanwhile. Every other name's entry is as it was.
   */
  lemma FailedRenameRestoresEntryIff(w: World, r: Request, f: Faults)
    requires Renaming(w, r) && Register(w, r, f).1 == FailedBefore
    requires Lookup(w.hashes.registry, r.name) != Some(r.provisional) && LastCompleted(w.hashes, r.name) != Some(r.provisional)
    ensures var entry := Lookup(Register(w, r, f).0.hashes.registry, r.name);
            && (entry == Some(r.provisional) <==> EntryLeft(r, f))
            && (!EntryLeft(r, f) ==>
                  || entry == Lookup(w.hashes.registry, r.name)
                  || entry == LastCompleted(w.hashes, r.name)
                  || (r.later.Some? && entry == r.later))
            && (!EntryLeft(r, f) && Heard(f.prune) && Heard(f.create) && Acts(f.write) ==>
                  entry == if r.later.Some? then r.later else LastCompleted(w.hashes, r.name))
    ensures forall n :: n != r.name ==>
              Lookup(Register(w, r, f).0.hashes.registry, n) == Lookup(w.hashes.registry, n)
  {
    UndoAfterWrite(w.hashes, r);
    CreatedMeansHeard(w, r, f);
    CreationWrites(w, r, f);
    var w1 := CreateSession(w, r, f).0;
    hide CreateSession, Transfer, M.StoreInv, R.WriteProvisional, R.UndoWrite, R.Publish, LastCompleted, Close, I.SessionsOk;
    if CreateSession(w, r, f).1 {
      var w2 := w1.(store := Transfer(w1, r, f).0);
      assert Register(w, r, f).0 == RollBack(w2, r, f);
    }
  }

  lemma CreationWrites(w: World, r: Request, f: Faults)
    ensures CreateSession(w, r, f).0.hashes ==
            if Heard(f.prune) && Heard(f.create) && Acts(f.write)
            then R.WriteProvisional(w.hashes, r.name, r.provisional) else w.hashes
    ensures Heard(f.prune) && Heard(f.create) && Acts(f.write) ==>
              Lookup(CreateSession(w, r, f).0.hashes.registry, r.name) == Some(r.provisional) &&
              forall n :: n != r.name ==> Lookup(CreateSession(w, r, f).0.hashes.registry, n) == Lookup(w.hashes.registry, n)
  {
  }

  /**
   * The new session is left behind: its creation happened and only the reply
   * was lost; or the call that was to delete it never reached Redis, in the
   * clean-up of a failed creation or in the rollback's close. And a close
   * takes a session of the empty name for none at all.
   */
  predicate SessionLeft(name: string, f: Faults) {
    Heard(f.prune) &&
    (f.create == ReplyLost ||
     (Heard(f.create) &&
      if Heard(f.write) then !Heard(f.closeRead) || name == "" || !Acts(f.closeDelete) else !Acts(f.cleanup)))
  }

  /** Its membership of the new name: the close stops short of that unless its delete was heard. */
  predicate MembershipLeft(name: string, f: Faults) {
    SessionLeft(name, f) ||
    (Heard(f.prune) && Heard(f.create) && Heard(f.write) && (!Heard(f.closeDelete) || !Acts(f.closeLeave)))
  }

  /** Whatever call fails, the new session, its lease and its membership are left exactly in those cases. */
  lemma FailedRenameLeavesSessionIff(w: World, r: Request, f: Faults)
    requires Renaming(w, r) && Register(w, r, f).1 == FailedBefore
    ensures var x := Register(w, r, f).0.sess;
            && (r.sid in x.records <==> SessionLeft(r.name, f))
            && (r.sid in x.leases <==> SessionLeft(r.name, f))
            && ((exists agent :: I.Member(agent, r.sid) in x.members) <==> MembershipLeft(r.name, f))
  {
    CreatedMeansHeard(w, r, f);
    CreationAdds(w, r, f);
    var (w1, created) := CreateSession(w, r, f);
    hide CreateSession, Transfer, M.StoreInv, R.WriteProvisional, R.UndoWrite, R.Publish, I.SessionsOk;
    if created {
      var w2 := w1.(store := Transfer(w1, r, f).0);
      assert Register(w, r, f).0 == RollBack(w2, r, f);
      CloseRemoves(w1.sess, r.sid, r.name, f.closeRead, f.closeDelete, f.closeLeave);
    }
  }

  lemma CreationAdds(w: World, r: Request, f: Faults)
    requires Renaming(w, r)
    ensures var x := CreateSession(w, r, f).0.sess;
            var left := Heard(f.prune) && (f.create == ReplyLost || (Heard(f.create) && (Heard(f.write) || !Acts(f.cleanup))));
            if left then r.sid in x.leases && Lookup(x.records, r.sid) == Some(r.name) && OnlyMember(x, r.sid, r.name)
            else r.sid !in x.leases && r.sid !in x.records && forall agent :: I.Member(agent, r.sid) !in x.members
  {
    I.PruneOk(w.sess, r.name);
    NotBorn(w.sess, r.sid);
    NotBorn(I.Prune(w.sess, r.name), r.sid);
    hide I.Prune, R.WriteProvisional, I.SessionsOk;
  }

  lemma NotBorn(x: I.Sessions, sid: I.Sid)
    requires I.SessionsOk(x) && sid !in x.born
    ensures sid !in x.records && sid !in x.leases && forall agent :: I.Member(agent, sid) !in x.members
  {
  }

  ghost predicate OnlyMember(x: I.Sessions, sid: I.Sid, name: string) {
    forall agent :: I.Member(agent, sid) in x.members <==> agent == name
  }

  /** What a close removes of a session, and what it leaves when one of its calls fails. */
  lemma CloseRemoves(x: I.Sessions, sid: I.Sid, name: string, read: Fault, delete: Fault, leave: Fault)
    requires sid in x.leases && Lookup(x.records, sid) == Some(name) && OnlyMember(x, sid, name)
    ensures var y := Close(x, sid, read, delete, leave).0;
            var unread := !Heard(read) || name == "";
            && (sid in y.records <==> unread || !Acts(delete))
            && (sid in y.leases <==> unread || !Acts(delete))
            && ((exists agent :: I.Member(agent, sid) in y.members) <==> unread || !Heard(delete) || !Acts(leave))
  {
    var y := Close(x, sid, read, delete, leave).0;
    assert I.Member(name, sid) in x.members;
    if !Heard(read) || name == "" || !Heard(delete) || !Acts(leave) {
      assert I.Member(name, sid) in y.members;
    }
  }

  /** With every call of the rollback heard, what creation left is gone; the session only if its name is not empty. */
  lemma HeardRollbackLeavesNothing(w: World, r: Request, f: Faults)
    requires Renaming(w, r) && Register(w, r, f).1 == FailedBefore && CreateSession(w, r, f).1
    requires Heard(f.closeRead) && Heard(f.closeDelete) && Heard(f.closeLeave) && Heard(f.undo)
    requires Lookup(w.hashes.registry, r.name) != Some(r.provisional) && LastCompleted(w.hashes, r.name) != Some(r.provisional)
    ensures var w' := Register(w, r, f).0;
            && (r.sid in w'.sess.records <==> r.name == "") && (r.sid in w'.sess.leases <==> r.name == "")
            && ((exists agent :: I.Member(agent, r.sid) in w'.sess.members) <==> r.name == "")
            && Lookup(w'.hashes.registry, r.name) == (if r.later.Some? then r.later else LastCompleted(w.hashes, r.name))
  {
    CreatedMeansHeard(w, r, f);
    hide Register, CreateSession, M.StoreInv, I.SessionsOk;
    FailedRenameLeavesSessionIff(w, r, f);
    FailedRenameRestoresEntryIff(w, r, f);
  }

  function AllFine(): Faults {
    Faults(Fine, Fine, Fine, Fine, Fine, Fine, Fine, Fine, Fine, Fine, Fine, Fine, Fine, Fine, Fine)
  }

  /** Both cases from any state: the reply of the provisional write is lost, or that of the creation. */
  lemma LostRepliesLeaveEntryOrSession(w: World, r: Request)
    requires Renaming(w, r)
    ensures var (w1, end) := Register(w, r, AllFine().(write := ReplyLost));
            end == FailedBefore && Lookup(w1.hashes.registry, r.name) == Some(r.provisional) && r.sid !in w1.sess.records
    ensures var (w2, end) := Register(w, r, AllFine().(create := ReplyLost));
            end == FailedBefore && Lookup(w2.sess.records, r.sid) == Some(r.name) && r.sid in w2.sess.leases
  {
    var f, g := AllFine().(write := ReplyLost), AllFine().(create := ReplyLost);
    CreatedMeansHeard(w, r, f);
    CreatedMeansHeard(w, r, g);
    CreationWrites(w, r, f);
    CreationAdds(w, r, f);
    CreationAdds(w, r, g);
    hide CreateSession, Transfer, M.StoreInv, I.SessionsOk;
  }

  // ---------------------------------------------------------------- success

  ghost predicate HasClaim(s: M.Store, agent: string) {
    exists id :: id in s.claims && s.claims[id].actor == agent
  }

  ghost predicate HasExpiredClaim(s: M.Store, agent: string, now: int) {
    exists id :: id in s.claims && s.claims[id].actor == agent && s.claims[id].expiresAt < now
  }

  /** The new session exists, recovery has been done, and no claim of the old name stands in the way. */
  ghost predicate MayMove(w: World, r: Request, f: Faults) {
    && Heard(f.prune) && Heard(f.create) && Heard(f.write) && Heard(f.recover)
    && !(r.blocked && HasExpiredClaim(w.store, w.agent, r.now))
    && !HasClaim(Met(w, r), w.agent)
  }

  /** Recovery is refused exactly if it is blocked with an expired claim to recover. */
  lemma RecoveryRefusedIff(w: World, r: Request)
    requires M.StoreInv(w.store)
    ensures RecoveryRefused(w, r) <==> r.blocked && HasExpiredClaim(w.store, w.agent, r.now)
  {
    var v := M.ViewOf(w.store, w.agent);
    var index := v.box.index;
    assert C.Inv(v, w.agent);
    C.DueIsExactlyTheExpired(index, r.now);
    if RecoveryRefused(w, r) {
      assert index[0] in index && index[0] in index[..C.Due(index, r.now)];
      assert w.store.claims[index[0].id].expiresAt < r.now;
    } else if HasExpiredClaim(w.store, w.agent, r.now) {
      var id :| id in w.store.claims && w.store.claims[id].actor == w.agent && w.store.claims[id].expiresAt < r.now;
      assert C.Entry(w.store.claims[id].expiresAt, id) in index;
      assert index[0..] == index;
    }
  }

  lemma NoClaimIff(s: M.Store, agent: string)
    requires M.StoreInv(s)
    ensures M.BoxOf(s, agent).index == [] <==> !HasClaim(s, agent)
  {
    var v := M.ViewOf(s, agent);
    assert C.Inv(v, agent);
    if v.box.index != [] { assert v.box.index[0] in v.box.index; }
  }

  /**
   * A rename gets past its transfer exactly if the mailbox may move and the
   * transfer is heard, however much there is to move; and it succeeds exactly
   * if the publication is heard too, under a name that is not empty.
   */
  lemma RenameSucceedsIff(w: World, r: Request, f: Faults)
    requires Renaming(w, r)
    ensures Register(w, r, f).1 != FailedBefore <==> MayMove(w, r, f) && Heard(f.migrate)
    ensures Register(w, r, f).1 == Renamed <==> MayMove(w, r, f) && Heard(f.migrate) && Heard(f.publish) && r.name != ""
  {
    OldSessionSurvivesCreation(w, r, f);
    CreatedMeansHeard(w, r, f);
    RecoveryRefusedIff(w, r);
    RecoveryKeepsStore(w, r);
    NoClaimIff(Met(w, r), w.agent);
    var w1 := CreateSession(w, r, f).0;
    assert Met(w1, r) == Met(w, r) && (RecoveryRefused(w1, r) <==> RecoveryRefused(w, r));
    hide CreateSession, RollBack, RetireOld, M.StoreInv, I.SessionsOk, Meanwhile, HasClaim, HasExpiredClaim, Recovered, RecoveryRefused;
  }

  lemma StoreAfterRename(w: World, r: Request, f: Faults)
    requires Renaming(w, r)
    ensures var after := Register(w, r, f).0.store;
            && (MayMove(w, r, f) && Acts(f.migrate) ==> after == M.Migrate(Met(w, r), w.agent, r.name).0)
            && (!(MayMove(w, r, f) && Acts(f.migrate)) ==> after == w.store || after == Recovered(w, r) || after == Met(w, r))
  {
    OldSessionSurvivesCreation(w, r, f);
    CreatedMeansHeard(w, r, f);
    RecoveryRefusedIff(w, r);
    RecoveryKeepsStore(w, r);
    NoClaimIff(Met(w, r), w.agent);
    var w1 := CreateSession(w, r, f).0;
    assert Met(w1, r) == Met(w, r) && Recovered(w1, r) == Recovered(w, r) && (RecoveryRefused(w1, r) <==> RecoveryRefused(w, r));
    hide CreateSession, RollBack, RetireOld, M.StoreInv, I.SessionsOk, Meanwhile, HasClaim, HasExpiredClaim, Recovered, RecoveryRefused;
    RollBackKeepsStore(w1.(store := Transfer(w1, r, f).0), r, f);
  }

  /**
   * Whatever the rename reports, the old name's mailbox is moved exactly if it
   * may move and the transfer reaches Redis; otherwise no payload changes name.
   */
  lemma MailboxMovesIff(w: World, r: Request, f: Faults)
    requires Renaming(w, r)
    ensures var after, src := Register(w, r, f).0.store, M.BoxOf(Met(w, r), w.agent);
            && (MayMove(w, r, f) && Acts(f.migrate) ==> after == M.Migrate(Met(w, r), w.agent, r.name).0)
            && (!(MayMove(w, r, f) && Acts(f.migrate)) ==> after == w.store || after == Recovered(w, r) || after == Met(w, r))
            && (M.Contents(src) != multiset{} ==>
                  (M.BoxOf(after, w.agent).ledger.movedOut == src.ledger.movedOut + M.Contents(src)
                   <==> MayMove(w, r, f) && Acts(f.migrate)))
  {
    StoreAfterRename(w, r, f);
    RecoveryKeepsStore(w, r);
    NothingMovesBefore(w, r);
    NoClaimIff(Met(w, r), w.agent);
    var after, src := Register(w, r, f).0.store, M.BoxOf(Met(w, r), w.agent);
    hide Register, M.Migrate, M.BoxOf, M.Absorb, M.Vacate, M.Contents, M.StoreInv, Recovered, Met, HasClaim;
    if MayMove(w, r, f) && Acts(f.migrate) {
      M.MoveIsLocal(Met(w, r), w.agent, r.name);
      M.AbsorbBooks(M.BoxOf(Met(w, r), r.name), src);
    } else if M.Contents(src) != multiset{} {
      NoGain(M.BoxOf(after, w.agent).ledger.movedOut, src.ledger.movedOut, M.Contents(src));
    }
  }

  lemma NoGain(part: multiset<C.Task>, whole: multiset<C.Task>, more: multiset<C.Task>)
    requires part <= whole && more != multiset{}
    ensures part != whole + more
  {
    var t :| t in more;
    assert part[t] < (whole + more)[t];
  }

  lemma RollBackKeepsStore(w: World, r: Request, f: Faults)
    ensures RollBack(w, r, f).store == w.store && RetireOld(w, f).store == w.store
  {
  }

  lemma NothingMovesBefore(w: World, r: Request)
    requires M.StoreInv(w.store)
    ensures var early, mid, met := M.BoxOf(w.store, w.agent), M.BoxOf(Recovered(w, r), w.agent), M.BoxOf(Met(w, r), w.agent);
            early.ledger.movedOut <= mid.ledger.movedOut <= met.ledger.movedOut
  {
    var e := M.At(w.agent, C.RecoverExpired(r.now, r.blocked));
    M.StoreStepKeepsInv(w.store, e);
    assert M.ValidStoreRun(M.StoreStep(w.store, e), []) && M.ValidStoreRun(w.store, [e]) && [e][1..] == [];
    M.MovedOutGrows(w.store, [e], w.agent);
    assert M.StoreRun(w.store, [e]) == Recovered(w, r);
    if M.ValidStoreRun(Recovered(w, r), r.between) { M.MovedOutGrows(Recovered(w, r), r.between, w.agent); }
  }

  /**
   * A rename whose transfer is reported complete has moved the whole inbox, as
   * the transfer met it, behind the new name's in order, the dead letters before
   * the new name's up to the bound, and no claim of the old name is left.
   */
  lemma SuccessfulRenameMovesTheMailbox(w: World, r: Request, f: Faults)
    requires Renaming(w, r) && Register(w, r, f).1 != FailedBefore
    ensures var w' := Register(w, r, f).0;
            var src, dst := M.BoxOf(Met(w, r), w.agent), M.BoxOf(Met(w, r), r.name);
            var left, got := M.BoxOf(w'.store, w.agent), M.BoxOf(w'.store, r.name);
            && w'.agent == r.name && w'.session == r.sid
            && got.inbox == dst.inbox + src.inbox && got.dlq == C.Trim(src.dlq + dst.dlq) && got.index == dst.index
            && left.inbox == [] && left.dlq == []
            && (forall id :: id in w'.store.claims ==> w'.store.claims[id].actor != w.agent)
            && M.StoreInv(w'.store)
  {
    OldSessionSurvivesCreation(w, r, f);
    var w1 := CreateSession(w, r, f).0;
    var s1 := Met(w, r);
    RecoveryKeepsStore(w, r);
    assert Met(w1, r) == s1;
    hide CreateSession, M.StoreInv, C.Recover, M.Migrate, Meanwhile;
    assert Register(w, r, f).0.store == M.Migrate(s1, w.agent, r.name).0;
    M.MigrationMovesAllOrNothing(s1, w.agent, r.name);
    M.StoreStepKeepsInv(s1, M.Move(w.agent, r.name));
  }

  lemma RecoveryKeepsStore(w: World, r: Request)
    requires M.StoreInv(w.store)
    ensures M.StoreInv(Met(w, r))
  {
    M.StoreStepKeepsInv(w.store, M.At(w.agent, C.RecoverExpired(r.now, r.blocked)));
    var s := Recovered(w, r);
    if M.ValidStoreRun(s, r.between) { M.StoreRunKeepsInv(s, r.between); }
  }

  /** Afterwards the new session is live, the name published, and, calls heard, the old identity retired. */
  lemma SuccessfulRenameSwitchesIdentity(w: World, r: Request, f: Faults)
    requires Renaming(w, r) && Register(w, r, f).1 != FailedBefore && Acts(f.publish)
    ensures var w' := Register(w, r, f).0;
            && Lookup(w'.sess.records, r.sid) == Some(r.name) && r.sid in w'.sess.leases
            && Lookup(w'.hashes.registry, r.name) == Some(r.completed)
            && (Heard(f.oldRead) && Heard(f.oldDelete) && Heard(f.oldLeave) ==>
                  w.session !in w'.sess.records && w.session !in w'.sess.leases)
            && (Heard(f.oldEntry) ==> w.agent !in w'.hashes.registry)
  {
    OldSessionSurvivesCreation(w, r, f);
    hide CreateSession, Transfer, M.StoreInv, R.WriteProvisional;
  }

  // ------------------------------------------------------- the client itself

  /** Works on the session keys and the registry in place, through their own stores. */
  class RedisClient {
    const registry: R.RegistryStore
    const sessions: I.SessionStore
    var store: M.Store
    var agent: string
    var session: I.Sid

    constructor (registry: R.RegistryStore, sessions: I.SessionStore, store: M.Store, agent: string, session: I.Sid)
      ensures this.registry == registry && this.sessions == sessions
      ensures View() == World(registry.Contents(), sessions.View(), store, agent, session)
    {
      this.registry, this.sessions, this.store, this.agent, this.session := registry, sessions, store, agent, session;
    }

    function View(): World
      reads this, registry, sessions
    {
      World(registry.Contents(), sessions.View(), store, agent, session)
    }

    method CloseSession(sid: I.Sid, read: Fault, delete: Fault, leave: Fault) returns (ok: bool)
      requires I.SessionsOk(sessions.View())
      modifies sessions
      ensures I.SessionsOk(sessions.View())
      ensures (sessions.View(), ok) == Close(old(sessions.View()), sid, read, delete, leave)
    {
      if !Heard(read) { return false; }
      if sid !in sessions.records || sessions.records[sid] == "" { return true; }
      var name := sessions.records[sid];
      if Acts(delete) { sessions.DeleteSession(sid); }
      if !Heard(delete) { return false; }
      if Acts(leave) { sessions.LeaveAgent(name, sid); }
      return Heard(leave);
    }

    method CreateNewSession(r: Request, f: Faults) returns (ok: bool)
      requires I.SessionsOk(sessions.View())
      modifies sessions, registry
      ensures I.SessionsOk(sessions.View())
      ensures (View(), ok) == CreateSession(old(View()), r, f)
    {
      hide I.SessionsOk, R.WriteProvisional, I.Prune, I.Create;
      if Acts(f.prune) { var pruned := sessions.PruneExpired(r.name); }
      if !Heard(f.prune) { return false; }
      if Acts(f.create) { sessions.AddSession(r.sid, r.name); }
      if !Heard(f.create) { return false; }
      if Acts(f.write) { registry.WriteProvisionalValue(r.name, r.provisional); }
      if Heard(f.write) { return true; }
      if Acts(f.cleanup) {
        sessions.DeleteSession(r.sid);
        sessions.LeaveAgent(r.name, r.sid);
      }
      return false;
    }

    method MoveMailbox(r: Request, f: Faults) returns (ok: bool)
      modifies this`store
      ensures (store, ok) == Transfer(old(View()), r, f)
    {
      var refused := RecoveryRefused(View(), r);
      if Acts(f.recover) { store := Recovered(View(), r); }
      if !Heard(f.recover) || refused { return false; }
      store := Meanwhile(store, r);
      var (after, moved) := M.Migrate(store, agent, r.name);
      if Acts(f.migrate) { store := after; }
      return Heard(f.migrate) && moved.Some?;
    }

    /** register() of a client that already has another name. */
    method Reregister(r: Request, f: Faults) returns (end: End)
      requires I.SessionsOk(sessions.View())
      modifies this, registry, sessions
      ensures I.SessionsOk(sessions.View())
      ensures (View(), end) == Register(old(View()), r, f)
    {
      hide Transfer, CreateSession, Close, I.SessionsOk, R.Publish, R.UndoWrite;
      var created := CreateNewSession(r, f);
      if !created { return FailedBefore; }
      var moved := MoveMailbox(r, f);
      if !moved {
        var closed := CloseSession(r.sid, f.closeRead, f.closeDelete, f.closeLeave);
        if r.later.Some? { registry.PublishRegistration(r.name, r.later.value); }
        if Acts(f.undo) { var undone := registry.UndoRegistryWrite(r.name, r.provisional); }
        return FailedBefore;
      }
      var closed := CloseSession(session, f.oldRead, f.oldDelete, f.oldLeave);
      if Acts(f.oldEntry) { registry.RetireName(agent); }
      agent, session := r.name, r.sid;
      if Acts(f.publish) { registry.PublishRegistration(r.name, r.completed); }
      return if Heard(f.publish) && r.name != "" then Renamed else FailedAfter;
    }
  }
}
