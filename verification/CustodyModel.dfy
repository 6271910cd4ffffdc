/**
 * Worktree custody: the pure transition function and the admission of
 * hand-off records (src/core/custody-model.ts). Values that come in unchecked
 * are Json; a timestamp is its text as far as the code looks at it.
 */
module CustodyModel {
  import opened Options

  /** An unchecked value. */
  datatype Json = Undefined | Null | Text(text: string) | Number(n: int) | List(items: seq<Json>) | Other

  /** The fields admission reads, of a value that is an object. */
  datatype Input = NotObject | Fields(
    version: Json, head: Json, tree: Json, inventory: Json,
    hazards: Json, work: Json, author: Json, step: Json)

  datatype Author = Origin | Successor

  datatype Handoff = Handoff(
    author: Author, head: string, dirty: bool, inventory: seq<string>,
    work: string, hazards: seq<string>, step: string)

  datatype Code =
    | InvalidVersion | MissingHead | InvalidTree | DirtyWithoutInventory | InvalidInventory
    | MissingWork | InvalidAuthor | MissingStep
    | AlreadyHeld | ForfeitedRequiresTakeover | InvalidCustodian | TakeoverRequiresInventory
    | TakeoverRequiresForfeited | NotHeld | InvalidTimestamp | NotCustodian | StoreCorrupt

  /** Crashed: an exception instead of a typed result. */
  datatype Admission = Admitted(handoff: Handoff) | Refused(code: Code) | Crashed

  predicate IsText(j: Json) {
    j.Text?
  }

  predicate FullText(j: Json) {
    j.Text? && j.text != ""
  }

  predicate IsListOf(j: Json, item: Json -> bool) {
    j.List? && forall i :: 0 <= i < |j.items| ==> item(j.items[i])
  }

  function Texts(items: seq<Json>): (r: seq<string>)
    requires forall i :: 0 <= i < |items| ==> items[i].Text?
    ensures |r| == |items| && forall i :: 0 <= i < |r| ==> items[i] == Text(r[i])
  {
    if items == [] then [] else [items[0].text] + Texts(items[1..])
  }

  /** The checks in the order the code makes them; freezing spreads both lists. */
  function Admit(input: Input): Admission {
    if input == NotObject || input.version != Number(1) then Refused(InvalidVersion)
    else if !FullText(input.head) then Refused(MissingHead)
    else if input.tree != Text("clean") && input.tree != Text("dirty") then Refused(InvalidTree)
    else if input.tree == Text("dirty") && input.inventory in {Undefined, Null, List([])} then Refused(DirtyWithoutInventory)
    else if !IsListOf(input.inventory, FullText) then Refused(InvalidInventory)
    else if input.hazards != Undefined && !IsListOf(input.hazards, IsText) then Refused(InvalidInventory)
    else if !FullText(input.work) then Refused(MissingWork)
    else if input.author != Text("origin") && input.author != Text("successor_reconstructed") then Refused(InvalidAuthor)
    else if !FullText(input.step) then Refused(MissingStep)
    else if input.hazards == Undefined then Crashed
    else Admitted(Handoff(if input.author == Text("origin") then Origin else Successor,
                          input.head.text, input.tree == Text("dirty"), Texts(input.inventory.items),
                          input.work.text, Texts(input.hazards.items), input.step.text))
  }

  /** A hand-off as the value that admission reads. */
  function AsInput(h: Handoff): Input {
    Fields(Number(1), Text(h.head), Text(if h.dirty then "dirty" else "clean"),
           List(seq(|h.inventory|, i requires 0 <= i < |h.inventory| => Text(h.inventory[i]))),
           List(seq(|h.hazards|, i requires 0 <= i < |h.hazards| => Text(h.hazards[i]))),
           Text(h.work), Text(if h.author == Origin then "origin" else "successor_reconstructed"), Text(h.step))
  }

  /** What a hand-off must say. */
  ghost predicate Complete(h: Handoff) {
    && h.head != "" && h.work != "" && h.step != ""
    && (forall i :: 0 <= i < |h.inventory| ==> h.inventory[i] != "")
    && (h.dirty ==> h.inventory != [])
  }

  /** Admission accepts exactly the complete hand-offs, and reads back what was written. */
  lemma AdmitsExactlyCompleteHandoffs(input: Input, h: Handoff)
    ensures Admit(input) == Admitted(h) <==> input == AsInput(h) && Complete(h)
  {
    if input == AsInput(h) && Complete(h) {
      AdmitAsInput(h);
    } else if Admit(input) == Admitted(h) {
      AdmittedIsComplete(input, h);
    }
  }

  lemma AdmitAsInput(h: Handoff)
    requires Complete(h)
    ensures Admit(AsInput(h)) == Admitted(h)
  {
    var input := AsInput(h);
    assert Texts(input.inventory.items) == h.inventory;
    assert Texts(input.hazards.items) == h.hazards;
    assert IsListOf(input.inventory, FullText) && IsListOf(input.hazards, IsText);
    if h.dirty { assert |input.inventory.items| > 0; }
    assert h.author == Successor ==> input.author != Text("origin") by {
      assert |"origin"| != |"successor_reconstructed"|;
    }
    assert "dirty"[0] != "clean"[0];
  }

  lemma AdmittedIsComplete(input: Input, h: Handoff)
    requires Admit(input) == Admitted(h)
    ensures input == AsInput(h) && Complete(h)
  {
    assert input.inventory.items == AsInput(h).inventory.items;
    assert input.hazards.items == AsInput(h).hazards.items;
    if h.dirty { assert input.inventory != List([]); }
  }

  /**
   * The hazards list is checked as optional but then copied as present: an
   * otherwise complete hand-off without one raises instead of being answered.
   */
  lemma AdmissionCrashesExactlyWithoutHazards(input: Input)
    ensures Admit(input) == Crashed <==>
              input != NotObject && input.hazards == Undefined &&
              exists h :: Complete(h) && h.hazards == [] && input.(hazards := List([])) == AsInput(h)
  {
    if input != NotObject && input.hazards == Undefined {
      var filled := input.(hazards := List([]));
      if h :| Complete(h) && h.hazards == [] && filled == AsInput(h) {
        AdmitAsInput(h);
        assert Admit(filled) == Admitted(h);
      } else if Admit(input) == Crashed {
        assert Admit(filled).Admitted?;
        AdmittedIsComplete(filled, Admit(filled).handoff);
        assert false;
      }
    }
  }

  /** The first problem of a hand-off, in the order in which it is looked for. */
  predicate Passes(input: Input, code: Code) {
    match code
    case InvalidVersion => input.Fields? && input.version == Number(1)
    case MissingHead => input.Fields? && FullText(input.head)
    case InvalidTree => input.Fields? && input.tree in {Text("clean"), Text("dirty")}
    case DirtyWithoutInventory => input.Fields? && (input.tree == Text("dirty") ==> input.inventory !in {Undefined, Null, List([])})
    case InvalidInventory =>
      input.Fields? && IsListOf(input.inventory, FullText) && (input.hazards == Undefined || IsListOf(input.hazards, IsText))
    case MissingWork => input.Fields? && FullText(input.work)
    case InvalidAuthor => input.Fields? && input.author in {Text("origin"), Text("successor_reconstructed")}
    case MissingStep => input.Fields? && FullText(input.step)
    case _ => true
  }

  const Checks: seq<Code> :=
    [InvalidVersion, MissingHead, InvalidTree, DirtyWithoutInventory, InvalidInventory, MissingWork, InvalidAuthor, MissingStep]

  /** A refusal names the first check that fails; without one nothing is refused. */
  lemma RefusalNamesTheFirstProblem(input: Input, i: nat)
    requires i < |Checks|
    ensures Admit(input) == Refused(Checks[i]) <==>
              !Passes(input, Checks[i]) && forall j :: 0 <= j < i ==> Passes(input, Checks[j])
    ensures Admit(input).Refused? <==> exists j :: 0 <= j < |Checks| && !Passes(input, Checks[j])
  {
    hide IsListOf, FullText, IsText;
    assert Checks[0] == InvalidVersion && Checks[1] == MissingHead && Checks[2] == InvalidTree && Checks[3] == DirtyWithoutInventory;
    assert Checks[4] == InvalidInventory && Checks[5] == MissingWork && Checks[6] == InvalidAuthor && Checks[7] == MissingStep;
  }

  // ------------------------------------------------------------- transitions

  datatype Worktree = Worktree(path: string, head: string, fingerprint: string)
  datatype Custodian = Custodian(actor: string, session: string)
  datatype Tag = Unowned | Held | Released | Forfeited
  datatype Mode = Initial | Graceful | Takeover

  /** A timestamp's text: empty, not a date, or an instant. */
  datatype Stamp = Empty | Garbled | At(ms: int)

  datatype Record = Record(
    tag: Tag, worktree: Worktree, custodian: Option<Custodian>, mode: Option<Mode>,
    lease: Option<Stamp>, acquired: Option<Stamp>, handoff: Option<Handoff>)

  datatype Event =
    | ClaimEvent(custodian: Custodian, lease: Stamp, acquired: Option<Stamp>)
    | AssumeEvent(custodian: Custodian, lease: Stamp, acquired: Option<Stamp>, inventory: Json)
    | ReleaseEvent(input: Input)
    | ExpireEvent(now: Stamp)

  datatype Outcome = Ok(record: Record) | Fail(code: Code) | Raised

  function CreateCustody(w: Worktree): Record {
    Record(Unowned, w, None, None, None, None, None)
  }

  predicate ValidCustodian(c: Custodian) {
    c.actor != "" && c.session != ""
  }

  predicate ValidHold(c: Custodian, lease: Stamp, acquired: Option<Stamp>) {
    ValidCustodian(c) && lease != Empty && acquired != Some(Empty)
  }

  predicate ValidInventory(inventory: Json) {
    IsListOf(inventory, FullText) && inventory.items != []
  }

  function Hold(r: Record, c: Custodian, mode: Mode, lease: Stamp, acquired: Option<Stamp>): Record {
    r.(tag := Held, custodian := Some(c), mode := Some(mode), lease := Some(lease), acquired := acquired)
  }

  function Vacate(r: Record, tag: Tag): Record {
    r.(tag := tag, custodian := None, mode := None, lease := None, acquired := None)
  }

  function Transition(r: Record, e: Event): Outcome {
    match e
    case ClaimEvent(c, lease, acquired) =>
      (match r.tag
       case Held => Fail(AlreadyHeld)
       case Forfeited => Fail(ForfeitedRequiresTakeover)
       case _ =>
         if !ValidHold(c, lease, acquired) then Fail(InvalidCustodian)
         else Ok(Hold(r, c, if r.tag == Released then Graceful else Initial, lease, acquired)))
    case AssumeEvent(c, lease, acquired, inventory) =>
      if r.tag != Forfeited then Fail(TakeoverRequiresForfeited)
      else if !ValidHold(c, lease, acquired) then Fail(InvalidCustodian)
      else if !ValidInventory(inventory) then Fail(TakeoverRequiresInventory)
      else Ok(Hold(r, c, Takeover, lease, acquired))
    case ReleaseEvent(input) =>
      if r.tag != Held then Fail(NotHeld)
      else (match Admit(input)
            case Refused(code) => Fail(code)
            case Crashed => Raised
            case Admitted(h) => Ok(Vacate(r, Released).(handoff := Some(h))))
    case ExpireEvent(now) =>
      if r.tag != Held then Ok(r)
      else if r.lease == None || !now.At? || !r.lease.value.At? then Fail(InvalidTimestamp)
      else if now.ms <= r.lease.value.ms then Ok(r)
      else Ok(Vacate(r, Forfeited))
  }

  /** Who may hold, what a vacant record may still name, what a hand-off says. */
  ghost predicate WellFormed(r: Record) {
    && (r.tag == Held <==> r.custodian.Some?)
    && (r.tag == Held <==> r.lease.Some?)
    && (r.tag == Held <==> r.mode.Some?)
    && (r.tag != Held ==> r.acquired == None)
    && (r.tag == Held ==> ValidHold(r.custodian.value, r.lease.value, r.acquired))
    && (r.tag == Unowned ==> r.handoff == None)
    && (r.tag == Released ==> r.handoff.Some?)
    && (r.handoff.Some? ==> Complete(r.handoff.value))
  }

  /** The edges of custody: what each tag may become, and by which event. */
  predicate Edge(before: Record, after: Record, e: Event) {
    match e
    case ClaimEvent(c, lease, acquired) =>
      before.tag in {Unowned, Released} && after.tag == Held && after.custodian == Some(c) &&
      after.mode == Some(if before.tag == Released then Graceful else Initial) &&
      after.lease == Some(lease) && after.acquired == acquired && after.handoff == before.handoff
    case AssumeEvent(c, lease, acquired, inventory) =>
      before.tag == Forfeited && after.tag == Held && after.custodian == Some(c) && after.mode == Some(Takeover) &&
      after.lease == Some(lease) && after.acquired == acquired && after.handoff == before.handoff &&
      ValidInventory(inventory)
    case ReleaseEvent(input) =>
      before.tag == Held && after.tag == Released && after.handoff.Some? &&
      Admit(input) == Admitted(after.handoff.value)
    case ExpireEvent(now) =>
      after == before ||
      (before.tag == Held && after.tag == Forfeited && after.handoff == before.handoff &&
       before.lease.Some? && before.lease.value.At? && now.At? && before.lease.value.ms < now.ms)
  }

  /** A successful transition follows an edge, keeps the worktree and well-formedness. */
  lemma TransitionFollowsEdges(r: Record, e: Event)
    requires WellFormed(r) && Transition(r, e).Ok?
    ensures var after := Transition(r, e).record;
            Edge(r, after, e) && WellFormed(after) && after.worktree == r.worktree
  {
    if e.ReleaseEvent? && Admit(e.input).Admitted? {
      AdmittedIsComplete(e.input, Admit(e.input).handoff);
    }
  }

  /** Which events a record allows, and what is wrong with the others. */
  lemma TransitionSucceedsIff(r: Record, e: Event)
    ensures e.ClaimEvent? ==>
              var o, valid := Transition(r, e), ValidHold(e.custodian, e.lease, e.acquired);
              && (o.Ok? <==> r.tag in {Unowned, Released} && valid)
              && (o == Fail(AlreadyHeld) <==> r.tag == Held)
              && (o == Fail(ForfeitedRequiresTakeover) <==> r.tag == Forfeited)
              && (o == Fail(InvalidCustodian) <==> r.tag in {Unowned, Released} && !valid)
    ensures e.AssumeEvent? ==>
              var o, valid := Transition(r, e), ValidHold(e.custodian, e.lease, e.acquired);
              && (o.Ok? <==> r.tag == Forfeited && valid && ValidInventory(e.inventory))
              && (o == Fail(TakeoverRequiresForfeited) <==> r.tag != Forfeited)
              && (o == Fail(InvalidCustodian) <==> r.tag == Forfeited && !valid)
              && (o == Fail(TakeoverRequiresInventory) <==> r.tag == Forfeited && valid && !ValidInventory(e.inventory))
    ensures e.ReleaseEvent? ==>
              var o := Transition(r, e);
              && (o.Ok? <==> r.tag == Held && exists h :: Complete(h) && e.input == AsInput(h))
              && (r.tag != Held ==> o == Fail(NotHeld))
              && (o == Raised <==> r.tag == Held && Admit(e.input) == Crashed)
    ensures e.ExpireEvent? ==>
              var o, dated := Transition(r, e), r.lease.Some? && r.lease.value.At? && e.now.At?;
              && (o.Fail? <==> r.tag == Held && !dated)
              && (o.Fail? ==> o == Fail(InvalidTimestamp))
              && (o.Ok? ==> if r.tag == Held && e.now.ms > r.lease.value.ms
                            then o.record == r.(tag := Forfeited, custodian := None, mode := None, lease := None, acquired := None)
                            else o.record == r)
  {
    if e.ReleaseEvent? {
      if Admit(e.input).Admitted? { AdmittedIsComplete(e.input, Admit(e.input).handoff); }
      if h :| Complete(h) && e.input == AsInput(h) { AdmitAsInput(h); }
      hide Admit, AsInput;
    }
  }
}
