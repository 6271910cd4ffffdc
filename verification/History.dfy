/**
 * The incremental reader of a Codex transcript, newline-delimited records in
 * a growing file (src/registered-shell/codex-history.ts:10-89). What one line
 * says is a parameter; how bytes become lines, and lines turns, is the model.
 */
module History {
  import opened Options
  import opened ByteStrings

  const Newline: Byte := 10

  /** The thread the daemon returned: the transcript must belong to exactly it. */
  datatype Thread = Thread(id: string, cwd: string, path: Option<string>)

  datatype Part = Part(isText: bool, text: string)

  datatype RawItem =
    | UserMessage(id: string, content: seq<Part>, client: Option<string>)
    | AgentMessage(id: string, content: seq<Part>)
    | ToolCall(id: string, server: string, tool: string, status: string)
    | OtherItem(id: string)

  datatype What = TaskStarted | TaskComplete(failed: bool) | TurnAborted | ItemCompleted(item: Option<RawItem>) | OtherEvent

  /** What JSON makes of a line. */
  datatype Parsed =
    | Malformed
    | NoPayload
    | SessionMeta(id: string, cwd: string)
    | Event(turn: Option<string>, thread: Option<string>, what: What)
    | OtherRecord

  datatype Item =
    | UserItem(id: string, content: seq<Part>, client: Option<string>)
    | AgentItem(id: string, text: string)
    | ToolItem(id: string, server: string, tool: string, status: string)

  datatype Status = InProgress | Completed | Failed | Interrupted
  datatype Turn = Turn(id: string, status: Status, items: seq<Item>)

  function MaxTurns(): nat { 256 }
  function MaxItems(): nat { 128 }
  function MaxPending(): nat { 33554432 }
  function BlockSize(): nat { 65536 }

  // ------------------------------------------------------------ one line

  datatype Projection = Projection(verified: bool, turns: seq<Turn>)
  const Blank := Projection(false, [])

  function JoinTexts(content: seq<Part>): string {
    if content == [] then "" else (if content[0].isText then content[0].text else "") + JoinTexts(content[1..])
  }

  function Project(item: RawItem): Option<Item> {
    match item
    case UserMessage(id, content, client) => Some(UserItem(id, content, client))
    case AgentMessage(id, content) => Some(AgentItem(id, JoinTexts(content)))
    case ToolCall(id, server, tool, status) => Some(ToolItem(id, server, tool, status))
    case OtherItem(_) => None
  }

  function Without(items: seq<Item>, id: string): (r: seq<Item>)
    ensures |r| <= |items|
    ensures forall i :: 0 <= i < |r| ==> r[i].id != id && r[i] in items
  {
    if items == [] then []
    else if items[0].id == id then Without(items[1..], id) else [items[0]] + Without(items[1..], id)
  }

  /** slice(-n) */
  function LastOf<T>(s: seq<T>, n: nat): (r: seq<T>)
    ensures |r| == if |s| <= n then |s| else n
  {
    if |s| <= n then s else s[|s| - n..]
  }

  function TurnAt(turns: seq<Turn>, id: string): (i: nat)
    ensures i <= |turns| && (i < |turns| ==> turns[i].id == id)
    ensures forall j :: 0 <= j < i ==> turns[j].id != id
  {
    if turns == [] || turns[0].id == id then 0 else 1 + TurnAt(turns[1..], id)
  }

  function GetTurn(turns: seq<Turn>, id: string): (t: Turn)
    ensures t.id == id
  {
    var i := TurnAt(turns, id);
    if i < |turns| then turns[i] else Turn(id, InProgress, [])
  }

  /** A known turn keeps its place; a new one goes last, and may push out the oldest. */
  function SetTurn(turns: seq<Turn>, t: Turn): seq<Turn> {
    var i := TurnAt(turns, t.id);
    LastOf(if i < |turns| then turns[i := t] else turns + [t], MaxTurns())
  }

  function AddItem(t: Turn, item: RawItem): Turn {
    match Project(item)
    case None => t
    case Some(p) => t.(items := LastOf(Without(t.items, item.id) + [p], MaxItems()))
  }

  function ConsumeEvent(turns: seq<Turn>, id: string, what: What): seq<Turn> {
    var t := GetTurn(turns, id);
    match what
    case TaskStarted => SetTurn(turns, t.(status := InProgress))
    case TaskComplete(failed) => SetTurn(turns, t.(status := if failed then Failed else Completed))
    case TurnAborted => SetTurn(turns, t.(status := Interrupted))
    case ItemCompleted(None) => SetTurn(turns, t)
    case ItemCompleted(Some(item)) => SetTurn(turns, AddItem(t, item))
    case OtherEvent => turns
  }

  /** None: the line is an error. The first record with a payload must identify the thread. */
  function Consume(p: Projection, line: Parsed, thread: Thread): Option<Projection> {
    if line == Malformed then None
    else if line == NoPayload then Some(p)
    else if !p.verified then
      if line == SessionMeta(thread.id, thread.cwd) then Some(p.(verified := true)) else None
    else if !line.Event? || line.turn == None then Some(p)
    else if line.thread.Some? && line.thread.value != thread.id then None
    else Some(p.(turns := ConsumeEvent(p.turns, line.turn.value, line.what)))
  }

  // -------------------------------------- the reference: one fold over all lines

  type Parser = Bytes -> Parsed

  /** The complete lines of s, and what follows the last newline. */
  function LinesOf(s: Bytes): seq<Bytes> {
    if s == [] then []
    else if s[|s| - 1] == Newline then LinesOf(s[..|s| - 1]) + [Rest(s[..|s| - 1])]
    else LinesOf(s[..|s| - 1])
  }

  function Rest(s: Bytes): (r: Bytes)
    ensures |r| <= |s|
  {
    if s == [] || s[|s| - 1] == Newline then [] else Rest(s[..|s| - 1]) + [s[|s| - 1]]
  }

  function Fold(p: Projection, lines: seq<Bytes>, parse: Parser, thread: Thread): Option<Projection>
    decreases |lines|
  {
    if lines == [] then Some(p)
    else if lines[0] == [] then Fold(p, lines[1..], parse, thread)
    else match Consume(p, parse(lines[0]), thread)
      case None => None
      case Some(q) => Fold(q, lines[1..], parse, thread)
  }

  function Batch(content: Bytes, parse: Parser, thread: Thread): Option<Projection> {
    Fold(Blank, LinesOf(content), parse, thread)
  }

  // ------------------------------------------------------ the incremental reader

  datatype Reader = Reader(pending: Bytes, p: Projection)
  const Fresh := Reader([], Blank)

  function NewlineAt(s: Bytes): (i: nat)
    ensures i <= |s| && (i < |s| ==> s[i] == Newline)
    ensures forall j :: 0 <= j < i ==> s[j] != Newline
  {
    if s == [] || s[0] == Newline then 0 else 1 + NewlineAt(s[1..])
  }

  /** Take complete lines off the front of what is pending. */
  function Drain(r: Reader, parse: Parser, thread: Thread): Option<Reader>
    decreases |r.pending|
  {
    var end := NewlineAt(r.pending);
    if end == |r.pending| then Some(r) else
    var line, rest := r.pending[..end], r.pending[end + 1..];
    if line == [] then Drain(Reader(rest, r.p), parse, thread)
    else match Consume(r.p, parse(line), thread)
      case None => None
      case Some(q) => Drain(Reader(rest, q), parse, thread)
  }

  function FeedBlock(r: Reader, block: Bytes, parse: Parser, thread: Thread): Option<Reader> {
    match Drain(r.(pending := r.pending + block), parse, thread)
    case None => None
    case Some(after) => if |after.pending| > MaxPending() then None else Some(after)
  }

  function FeedBlocks(r: Reader, blocks: seq<Bytes>, parse: Parser, thread: Thread): Option<Reader>
    decreases |blocks|
  {
    if blocks == [] then Some(r)
    else match FeedBlock(r, blocks[0], parse, thread)
      case None => None
      case Some(after) => FeedBlocks(after, blocks[1..], parse, thread)
  }

  // --------------------------------------------- splitting into lines, in pieces

  lemma {:induction false} LinesInPieces(s: Bytes, t: Bytes)
    ensures LinesOf(s + t) == LinesOf(s) + LinesOf(Rest(s) + t)
    ensures Rest(s + t) == Rest(Rest(s) + t)
    decreases |t|
  {
    if t == [] {
      assert s + t == s && Rest(s) + t == Rest(s);
      RestHasNoLines(s);
    } else {
      var init, last := t[..|t| - 1], t[|t| - 1];
      assert (s + t)[..|s + t| - 1] == s + init;
      assert (Rest(s) + t)[..|Rest(s) + t| - 1] == Rest(s) + init;
      assert (s + t)[|s + t| - 1] == last && (Rest(s) + t)[|Rest(s) + t| - 1] == last;
      LinesInPieces(s, init);
    }
  }

  lemma {:induction false} RestHasNoLines(s: Bytes)
    ensures LinesOf(Rest(s)) == [] && Rest(Rest(s)) == Rest(s)
  {
    if s != [] && s[|s| - 1] != Newline {
      RestHasNoLines(s[..|s| - 1]);
      assert Rest(s)[..|Rest(s)| - 1] == Rest(s[..|s| - 1]);
    }
  }

  lemma {:induction false} NoNewlineNoLine(s: Bytes)
    requires forall j :: 0 <= j < |s| ==> s[j] != Newline
    ensures LinesOf(s) == [] && Rest(s) == s
  {
    if s != [] {
      NoNewlineNoLine(s[..|s| - 1]);
      assert s == s[..|s| - 1] + [s[|s| - 1]];
    }
  }

  lemma TerminatedLine(line: Bytes)
    requires forall j :: 0 <= j < |line| ==> line[j] != Newline
    ensures LinesOf(line + [Newline]) == [line] && Rest(line + [Newline]) == []
  {
    NoNewlineNoLine(line);
    var s := line + [Newline];
    assert s[..|s| - 1] == line && s[|s| - 1] == Newline;
  }

  lemma SplitAt(s: Bytes, end: nat)
    requires end < |s| && s[end] == Newline
    ensures s == (s[..end] + [Newline]) + s[end + 1..]
  {
  }

  lemma FirstLine(line: Bytes, rest: Bytes)
    requires forall j :: 0 <= j < |line| ==> line[j] != Newline
    ensures LinesOf((line + [Newline]) + rest) == [line] + LinesOf(rest)
    ensures Rest((line + [Newline]) + rest) == Rest(rest)
  {
    TerminatedLine(line);
    hide LinesOf, Rest;
    LinesInPieces(line + [Newline], rest);
    assert [] + rest == rest;
  }

  lemma {:induction false} FoldInPieces(p: Projection, a: seq<Bytes>, b: seq<Bytes>, parse: Parser, thread: Thread)
    ensures Fold(p, a + b, parse, thread) ==
            match Fold(p, a, parse, thread) case None => None case Some(q) => Fold(q, b, parse, thread)
    decreases |a|
  {
    if a == [] {
      assert a + b == b;
    } else {
      assert (a + b)[1..] == a[1..] + b;
      if a[0] == [] {
        FoldInPieces(p, a[1..], b, parse, thread);
      } else if Consume(p, parse(a[0]), thread).Some? {
        FoldInPieces(Consume(p, parse(a[0]), thread).value, a[1..], b, parse, thread);
      }
    }
  }

  /** Draining is folding the complete lines and keeping the rest. */
  lemma {:induction false} DrainIsFold(r: Reader, parse: Parser, thread: Thread)
    ensures Drain(r, parse, thread) ==
            match Fold(r.p, LinesOf(r.pending), parse, thread)
            case None => None
            case Some(q) => Some(Reader(Rest(r.pending), q))
    decreases |r.pending|
  {
    hide Consume, LinesOf, Rest;
    var end := NewlineAt(r.pending);
    if end == |r.pending| {
      NoNewlineNoLine(r.pending);
    } else {
      var line, rest := r.pending[..end], r.pending[end + 1..];
      SplitAt(r.pending, end);
      FirstLine(line, rest);
      assert ([line] + LinesOf(rest))[1..] == LinesOf(rest);
      if line == [] {
        DrainIsFold(Reader(rest, r.p), parse, thread);
      } else if Consume(r.p, parse(line), thread).Some? {
        DrainIsFold(Reader(rest, Consume(r.p, parse(line), thread).value), parse, thread);
      }
    }
  }

  /** A reader that has seen exactly the bytes s. */
  ghost predicate HasRead(r: Reader, s: Bytes, parse: Parser, thread: Thread) {
    Batch(s, parse, thread) == Some(r.p) && r.pending == Rest(s)
  }

  lemma BlockExtends(r: Reader, s: Bytes, block: Bytes, parse: Parser, thread: Thread)
    requires HasRead(r, s, parse, thread)
    ensures var after := FeedBlock(r, block, parse, thread);
            && (after.Some? ==> HasRead(after.value, s + block, parse, thread))
            && (after.Some? <==> Batch(s + block, parse, thread).Some? && |Rest(s + block)| <= MaxPending())
  {
    LinesInPieces(s, block);
    DrainIsFold(r.(pending := r.pending + block), parse, thread);
    FoldInPieces(Blank, LinesOf(s), LinesOf(Rest(s) + block), parse, thread);
  }

  /** At every block boundary after s, the unfinished record is within the limit. */
  ghost predicate RecordsFit(s: Bytes, blocks: seq<Bytes>)
    decreases |blocks|
  {
    blocks == [] || (|Rest(s + blocks[0])| <= MaxPending() && RecordsFit(s + blocks[0], blocks[1..]))
  }

  lemma BatchErrorStays(s: Bytes, t: Bytes, parse: Parser, thread: Thread)
    requires Batch(s, parse, thread) == None
    ensures Batch(s + t, parse, thread) == None
  {
    LinesInPieces(s, t);
    FoldInPieces(Blank, LinesOf(s), LinesOf(Rest(s) + t), parse, thread);
  }

  lemma PrefixProjects(content: Bytes, n: nat, parse: Parser, thread: Thread)
    requires n <= |content| && Batch(content, parse, thread).Some?
    ensures Batch(content[..n], parse, thread).Some?
  {
    assert content[..n] + content[n..] == content;
    if Batch(content[..n], parse, thread) == None { BatchErrorStays(content[..n], content[n..], parse, thread); }
  }

  /**
   * Incremental equals batch. However the bytes are cut into blocks, the
   * reader ends with the projection of one fold over the complete lines and
   * the trailing partial line pending; and it fails exactly if that fold
   * does, or an unfinished record passes the limit at a block boundary.
   */
  lemma {:induction false} BlocksAreBatch(r: Reader, s: Bytes, blocks: seq<Bytes>, parse: Parser, thread: Thread)
    requires HasRead(r, s, parse, thread)
    ensures var after := FeedBlocks(r, blocks, parse, thread);
            && (after.Some? ==> HasRead(after.value, s + Concat(blocks), parse, thread))
            && (after.Some? <==> Batch(s + Concat(blocks), parse, thread).Some? && RecordsFit(s, blocks))
    decreases |blocks|
  {
    hide Batch, Rest;
    if blocks == [] {
      assert s + Concat(blocks) == s;
    } else {
      BlockExtends(r, s, blocks[0], parse, thread);
      assert s + Concat(blocks) == (s + blocks[0]) + Concat(blocks[1..]);
      var after := FeedBlock(r, blocks[0], parse, thread);
      if after.Some? {
        BlocksAreBatch(after.value, s + blocks[0], blocks[1..], parse, thread);
      } else if Batch(s + blocks[0], parse, thread) == None {
        BatchErrorStays(s + blocks[0], Concat(blocks[1..]), parse, thread);
      }
    }
  }

  // -------------------------------------------------- a growing file, read on and on

  /** Poisoned: an earlier read failed, so every later one does. */
  datatype State = Healthy(reader: Reader) | Poisoned

  /** One read() of the blocks that have been added since the last one. */
  function ReadOn(h: State, blocks: seq<Bytes>, parse: Parser, thread: Thread): State {
    if h == Poisoned then Poisoned
    else match FeedBlocks(h.reader, blocks, parse, thread)
      case None => Poisoned
      case Some(after) => if after.p.verified then Healthy(after) else Poisoned
  }

  function Reads(h: State, rounds: seq<seq<Bytes>>, parse: Parser, thread: Thread): State
    decreases |rounds|
  {
    if rounds == [] then h else Reads(ReadOn(h, rounds[0], parse, thread), rounds[1..], parse, thread)
  }

  function Flatten(rounds: seq<seq<Bytes>>): seq<Bytes> {
    if rounds == [] then [] else rounds[0] + Flatten(rounds[1..])
  }

  predicate Verified(content: Bytes, parse: Parser, thread: Thread) {
    Batch(content, parse, thread).Some? && Batch(content, parse, thread).value.verified
  }

  lemma {:induction false} FoldStaysVerified(p: Projection, lines: seq<Bytes>, parse: Parser, thread: Thread)
    requires p.verified
    ensures Fold(p, lines, parse, thread).Some? ==> Fold(p, lines, parse, thread).value.verified
    decreases |lines|
  {
    if lines != [] {
      if lines[0] == [] {
        FoldStaysVerified(p, lines[1..], parse, thread);
      } else if Consume(p, parse(lines[0]), thread).Some? {
        FoldStaysVerified(Consume(p, parse(lines[0]), thread).value, lines[1..], parse, thread);
      }
    }
  }

  lemma VerifiedStays(s: Bytes, t: Bytes, parse: Parser, thread: Thread)
    requires Verified(s, parse, thread)
    ensures Batch(s + t, parse, thread).Some? ==> Verified(s + t, parse, thread)
  {
    LinesInPieces(s, t);
    FoldInPieces(Blank, LinesOf(s), LinesOf(Rest(s) + t), parse, thread);
    FoldStaysVerified(Batch(s, parse, thread).value, LinesOf(Rest(s) + t), parse, thread);
  }

  lemma {:induction false} RecordsFitSplits(s: Bytes, a: seq<Bytes>, b: seq<Bytes>)
    ensures RecordsFit(s, a + b) <==> RecordsFit(s, a) && RecordsFit(s + Concat(a), b)
    decreases |a|
  {
    hide Rest;
    if a == [] {
      assert a + b == b && s + Concat(a) == s;
    } else {
      assert (a + b)[1..] == a[1..] + b && (a + b)[0] == a[0];
      assert s + Concat(a) == (s + a[0]) + Concat(a[1..]);
      RecordsFitSplits(s + a[0], a[1..], b);
    }
  }

  lemma {:induction false} ReadsContinue(r: Reader, s: Bytes, rounds: seq<seq<Bytes>>, parse: Parser, thread: Thread)
    requires HasRead(r, s, parse, thread) && r.p.verified
    ensures var after := Reads(Healthy(r), rounds, parse, thread);
            var all := s + Concat(Flatten(rounds));
            && (after.Healthy? ==> HasRead(after.reader, all, parse, thread) && after.reader.p.verified)
            && (after.Healthy? <==> Batch(all, parse, thread).Some? && RecordsFit(s, Flatten(rounds)))
    decreases |rounds|
  {
    hide Batch, Rest, FeedBlocks;
    if rounds == [] {
      assert s + Concat(Flatten(rounds)) == s;
    } else {
      var more := Flatten(rounds[1..]);
      var next := s + Concat(rounds[0]);
      BlocksAreBatch(r, s, rounds[0], parse, thread);
      VerifiedStays(s, Concat(rounds[0]), parse, thread);
      ConcatAppend(rounds[0], more);
      RecordsFitSplits(s, rounds[0], more);
      assert s + Concat(Flatten(rounds)) == next + Concat(more);
      var after := FeedBlocks(r, rounds[0], parse, thread);
      if after.Some? {
        ReadsContinue(after.value, next, rounds[1..], parse, thread);
      } else {
        PoisonedStays(rounds[1..], parse, thread);
        if Batch(next, parse, thread) == None { BatchErrorStays(next, Concat(more), parse, thread); }
      }
    }
  }

  lemma {:induction false} PoisonedStays(rounds: seq<seq<Bytes>>, parse: Parser, thread: Thread)
    ensures Reads(Poisoned, rounds, parse, thread) == Poisoned
    decreases |rounds|
  {
    if rounds != [] { PoisonedStays(rounds[1..], parse, thread); }
  }

  /**
   * After any sequence of reads of a growing file, cut into blocks anyhow, a
   * healthy reader shows exactly the batch projection of all bytes; and it is
   * healthy exactly if the whole content projects, no unfinished record passed
   * the limit, and the first read already saw the complete identifying record.
   */
  lemma ReadsAreBatch(rounds: seq<seq<Bytes>>, parse: Parser, thread: Thread)
    requires rounds != []
    ensures var after := Reads(Healthy(Fresh), rounds, parse, thread);
            var all := Concat(Flatten(rounds));
            && (after.Healthy? ==> HasRead(after.reader, all, parse, thread))
            && (after.Healthy? <==> Batch(all, parse, thread).Some? && RecordsFit([], Flatten(rounds)) &&
                                    Verified(Concat(rounds[0]), parse, thread))
  {
    var first, more := Concat(rounds[0]), Flatten(rounds[1..]);
    assert HasRead(Fresh, [], parse, thread);
    hide Batch, Rest, FeedBlocks;
    BlocksAreBatch(Fresh, [], rounds[0], parse, thread);
    assert [] + first == first;
    ConcatAppend(rounds[0], more);
    RecordsFitSplits([], rounds[0], more);
    var after := FeedBlocks(Fresh, rounds[0], parse, thread);
    if after.Some? && after.value.p.verified {
      ReadsContinue(after.value, first, rounds[1..], parse, thread);
    } else {
      PoisonedStays(rounds[1..], parse, thread);
      if Batch(first, parse, thread) == None { BatchErrorStays(first, Concat(more), parse, thread); }
    }
  }

  /**
   * So a read that comes before the identifying line is complete poisons the
   * reader for good, though a reader that starts later rounds the same file.
   */
  lemma EarlyReadPoisons(early: Bytes, late: Bytes, parse: Parser, thread: Thread)
    requires LinesOf(early) == [] && |early + late| <= MaxPending()
    requires Verified(early + late, parse, thread)
    ensures Reads(Healthy(Fresh), [[early], [late]], parse, thread) == Poisoned
    ensures Reads(Healthy(Fresh), [[early + late]], parse, thread).Healthy?
  {
    assert [[early], [late]][0] == [early] && [[early + late]][0] == [early + late];
    OneChunk(early);
    OneChunk(early + late);
    assert !Verified(early, parse, thread);
    ReadsAreBatch([[early], [late]], parse, thread);
    ReadsAreBatch([[early + late]], parse, thread);
    assert Flatten([[early + late]]) == [early + late];
    assert [] + (early + late) == early + late;
    assert RecordsFit([], [early + late]) by { assert [early + late][1..] == []; }
  }

  // ------------------------------------------------------ what is kept, and shown

  ghost predicate DistinctItems(items: seq<Item>) {
    forall i, j :: 0 <= i < j < |items| ==> items[i].id != items[j].id
  }

  ghost predicate TurnOk(t: Turn) {
    |t.items| <= MaxItems() && DistinctItems(t.items)
  }

  ghost predicate Bounded(turns: seq<Turn>) {
    && |turns| <= MaxTurns()
    && (forall i, j :: 0 <= i < j < |turns| ==> turns[i].id != turns[j].id)
    && (forall i :: 0 <= i < |turns| ==> TurnOk(turns[i]))
  }

  lemma {:induction false} WithoutKeepsDistinct(items: seq<Item>, id: string)
    requires DistinctItems(items)
    ensures DistinctItems(Without(items, id))
  {
    if items != [] {
      var rest := items[1..];
      assert forall i :: 0 <= i < |rest| ==> rest[i] == items[i + 1];
      WithoutKeepsDistinct(rest, id);
      var r := Without(rest, id);
      forall j | 0 <= j < |r| ensures r[j].id != items[0].id {
        var k :| 0 <= k < |rest| && rest[k] == r[j];
        assert items[0].id != items[k + 1].id;
      }
    }
  }

  lemma AddItemOk(t: Turn, item: RawItem)
    requires TurnOk(t)
    ensures TurnOk(AddItem(t, item)) && AddItem(t, item).id == t.id
  {
    if Project(item).Some? {
      WithoutKeepsDistinct(t.items, item.id);
      var all := Without(t.items, item.id) + [Project(item).value];
      assert Project(item).value.id == item.id;
      assert DistinctItems(all);
      assert AddItem(t, item).items == LastOf(all, MaxItems());
    }
  }

  lemma SetTurnBounded(turns: seq<Turn>, t: Turn)
    requires Bounded(turns) && TurnOk(t)
    ensures Bounded(SetTurn(turns, t)) && t in SetTurn(turns, t)
  {
    hide TurnOk;
    var i := TurnAt(turns, t.id);
    var all := if i < |turns| then turns[i := t] else turns + [t];
    assert all[if i < |turns| then i else |turns|] == t;
    assert forall k :: 0 <= k < |all| ==> TurnOk(all[k]);
    hide TurnAt;
    LastTurnsBounded(all, t);
  }

  lemma LastTurnsBounded(all: seq<Turn>, t: Turn)
    requires |all| <= MaxTurns() + 1 && t in all && (|all| > MaxTurns() ==> all[MaxTurns()] == t)
    requires forall i, j :: 0 <= i < j < |all| ==> all[i].id != all[j].id
    requires forall k :: 0 <= k < |all| ==> TurnOk(all[k])
    ensures Bounded(LastOf(all, MaxTurns())) && t in LastOf(all, MaxTurns())
  {
    hide TurnOk;
    if |all| > MaxTurns() {
      assert LastOf(all, MaxTurns()) == all[1..];
      assert all[1..][MaxTurns() - 1] == t;
    }
  }

  lemma ConsumeBounded(p: Projection, line: Parsed, thread: Thread)
    requires Bounded(p.turns) && Consume(p, line, thread).Some?
    ensures Bounded(Consume(p, line, thread).value.turns)
  {
    if line.Event? && line.turn.Some? {
      var t := GetTurn(p.turns, line.turn.value);
      assert TurnOk(t);
      hide Bounded;
      match line.what
      case TaskStarted => SetTurnBounded(p.turns, t.(status := InProgress));
      case TaskComplete(failed) => SetTurnBounded(p.turns, t.(status := if failed then Failed else Completed));
      case TurnAborted => SetTurnBounded(p.turns, t.(status := Interrupted));
      case ItemCompleted(None) => SetTurnBounded(p.turns, t);
      case ItemCompleted(Some(item)) =>
        AddItemOk(t, item);
        SetTurnBounded(p.turns, AddItem(t, item));
      case OtherEvent =>
    }
  }

  lemma {:induction false} FoldBounded(p: Projection, lines: seq<Bytes>, parse: Parser, thread: Thread)
    requires Bounded(p.turns) && Fold(p, lines, parse, thread).Some?
    ensures Bounded(Fold(p, lines, parse, thread).value.turns)
    decreases |lines|
  {
    hide Bounded, Consume;
    if lines != [] {
      if lines[0] == [] {
        FoldBounded(p, lines[1..], parse, thread);
      } else {
        ConsumeBounded(p, parse(lines[0]), thread);
        FoldBounded(Consume(p, parse(lines[0]), thread).value, lines[1..], parse, thread);
      }
    }
  }

  /** At most 256 turns of at most 128 items, ids distinct, whatever the transcript. */
  lemma BatchIsBounded(content: Bytes, parse: Parser, thread: Thread)
    requires Batch(content, parse, thread).Some?
    ensures Bounded(Batch(content, parse, thread).value.turns)
  {
    FoldBounded(Blank, LinesOf(content), parse, thread);
  }

  /** What an event does to its own turn. */
  ghost predicate Updated(was: Turn, now: Turn, what: What) {
    && now.id == was.id
    && now.status == (match what
                      case TaskStarted => InProgress
                      case TaskComplete(failed) => if failed then Failed else Completed
                      case TurnAborted => Interrupted
                      case _ => was.status)
    && (!what.ItemCompleted? || what.item == None || Project(what.item.value) == None ==> now.items == was.items)
    && (what.ItemCompleted? && what.item.Some? && Project(what.item.value).Some? ==>
          now.items != [] && Some(now.items[|now.items| - 1]) == Project(what.item.value))
  }

  /**
   * An event updates its own turn and no other: every other turn stays as it
   * was, except that a 257th turn pushes out the oldest.
   */
  lemma EventUpdatesOnlyItsTurn(turns: seq<Turn>, id: string, what: What, other: Turn)
    requires Bounded(turns) && !what.OtherEvent? && other.id != id
    ensures var after := ConsumeEvent(turns, id, what);
            && (exists t :: t in after && Updated(GetTurn(turns, id), t, what))
            && (other in after ==> other in turns)
            && (other in turns && other !in after ==> |turns| == MaxTurns() && other == turns[0])
  {
    var t := GetTurn(turns, id);
    var t' := match what
      case TaskStarted => t.(status := InProgress)
      case TaskComplete(failed) => t.(status := if failed then Failed else Completed)
      case TurnAborted => t.(status := Interrupted)
      case ItemCompleted(Some(item)) => AddItem(t, item)
      case _ => t;
    assert TurnOk(t);
    if what.ItemCompleted? && what.item.Some? { AddItemOk(t, what.item.value); }
    assert Updated(t, t', what);
    assert ConsumeEvent(turns, id, what) == SetTurn(turns, t');
    hide ConsumeEvent, Updated, AddItem;
    SetTurnBounded(turns, t');
    SetTurnKeepsOthers(turns, t', other);
  }

  lemma SetTurnKeepsOthers(turns: seq<Turn>, t: Turn, other: Turn)
    requires |turns| <= MaxTurns() && other.id != t.id
    ensures var after := SetTurn(turns, t);
            && (other in after ==> other in turns)
            && (other in turns && other !in after ==> |turns| == MaxTurns() && other == turns[0])
  {
    var i := TurnAt(turns, t.id);
    var all := if i < |turns| then turns[i := t] else turns + [t];
    if other in turns {
      var k :| 0 <= k < |turns| && turns[k] == other;
      assert all[k] == other;
      if |all| > MaxTurns() && k > 0 { assert SetTurn(turns, t)[k - 1] == other; }
    }
  }

  /** A known turn keeps its place; a new one goes last, and beyond the bound the oldest goes. */
  lemma TurnsKeepTheirPlaces(turns: seq<Turn>, t: Turn)
    requires |turns| <= MaxTurns()
    ensures (forall i :: 0 <= i < |turns| && turns[i].id == t.id && (forall j :: 0 <= j < i ==> turns[j].id != t.id) ==>
               SetTurn(turns, t) == turns[i := t])
    ensures (forall i :: 0 <= i < |turns| ==> turns[i].id != t.id) ==>
              SetTurn(turns, t) == (if |turns| < MaxTurns() then turns else turns[1..]) + [t]
  {
    var i := TurnAt(turns, t.id);
    if i == |turns| && |turns| == MaxTurns() { assert (turns + [t])[1..] == turns[1..] + [t]; }
  }

  lemma {:induction false} WithoutKeepsOthers(items: seq<Item>, id: string, other: Item)
    requires other.id != id
    ensures other in Without(items, id) <==> other in items
    ensures |Without(items, id)| == |items| <==> forall x :: x in items ==> x.id != id
    ensures (forall x :: x in items ==> x.id != id) ==> Without(items, id) == items
  {
    if items != [] {
      WithoutKeepsOthers(items[1..], id, other);
      assert items == [items[0]] + items[1..];
      if items[0].id == id { assert items[0] in items; }
    }
  }

  /** A completed item goes last and takes the place of an earlier one with its id; every other stays, except that a 129th pushes out the oldest. */
  lemma ItemReplacesOnlyItsOwn(t: Turn, item: RawItem, other: Item)
    requires TurnOk(t) && Project(item).Some? && other.id != item.id
    ensures var items := AddItem(t, item).items;
            && items != [] && items[|items| - 1] == Project(item).value
            && (other in items ==> other in t.items)
            && (other in t.items && other !in items ==>
                  |t.items| == MaxItems() && other == t.items[0] && forall x :: x in t.items ==> x.id != item.id)
  {
    var kept, shown := Without(t.items, item.id), Project(item).value;
    WithoutKeepsOthers(t.items, item.id, other);
    assert shown.id == item.id && |kept| <= MaxItems();
    hide TurnOk, Without, Project;
    LastOfAll(kept, shown, MaxItems());
    var front := if |kept| < MaxItems() then kept else kept[1..];
    assert AddItem(t, item).items == front + [shown];
    assert |kept| == MaxItems() ==> kept == t.items && kept == [kept[0]] + front;
  }

  lemma LastOfAll<T>(kept: seq<T>, last: T, n: nat)
    requires |kept| <= n && n > 0
    ensures LastOf(kept + [last], n) == (if |kept| < n then kept else kept[1..]) + [last]
  {
  }

  /** What of an item is shown, by its kind; an item of no such kind is not. */
  lemma ItemIsShownAs(item: RawItem, shown: Item)
    ensures Project(item) == None <==> item.OtherItem?
    ensures Project(item) == Some(shown) <==>
              || (item.UserMessage? && shown.UserItem? && shown.id == item.id && shown.content == item.content && shown.client == item.client)
              || (item.AgentMessage? && shown.AgentItem? && shown.id == item.id && shown.text == JoinTexts(item.content))
              || (item.ToolCall? && shown.ToolItem? && shown.id == item.id && shown.server == item.server &&
                  shown.tool == item.tool && shown.status == item.status)
  {
  }

  /** What an item shows: texts joined in order, and nothing that is no text. */
  lemma {:induction false} TextsAreJoined(a: seq<Part>, b: seq<Part>, part: Part)
    ensures JoinTexts(a + b) == JoinTexts(a) + JoinTexts(b)
    ensures JoinTexts([part]) == if part.isText then part.text else ""
  {
    assert [part][1..] == [];
    if a == [] {
      assert a + b == b;
    } else {
      assert (a + b)[1..] == a[1..] + b;
      TextsAreJoined(a[1..], b, part);
    }
  }

  /** Which lines are errors, and which change what is shown. */
  lemma LineOutcome(p: Projection, line: Parsed, thread: Thread)
    ensures var after := Consume(p, line, thread);
            var own := line.Event? && line.turn.Some? && (line.thread.Some? ==> line.thread.value == thread.id);
            && (after == None <==>
                  || line == Malformed
                  || (!p.verified && line != NoPayload && !(line.SessionMeta? && line.id == thread.id && line.cwd == thread.cwd))
                  || (p.verified && line.Event? && line.turn.Some? && !own))
            && (after.Some? ==> (after.value.verified <==> p.verified || line.SessionMeta?))
            && (after.Some? && !(p.verified && own) ==> after.value.turns == p.turns)
            && (after.Some? && p.verified && own ==> after.value.turns == ConsumeEvent(p.turns, line.turn.value, line.what))
            && (own && line.what.OtherEvent? && after.Some? ==> after.value.turns == p.turns)
  {
    hide SetTurn, AddItem;
  }

  /** userMessageMatches: by client id, or by the whole prompt as the one text. */
  predicate UserMessageMatches(item: Item, operation: string, prompt: string) {
    item.UserItem? && (item.client == Some(operation) || item.content == [Part(true, prompt)])
  }

  /** A recorded prompt is found again under its turn. */
  lemma RecordedPromptIsShown(p: Projection, turn: string, item: RawItem, operation: string, prompt: string, thread: Thread)
    requires p.verified && Bounded(p.turns)
    requires item.UserMessage? && (item.client == Some(operation) || item.content == [Part(true, prompt)])
    ensures var after := Consume(p, Event(Some(turn), None, ItemCompleted(Some(item))), thread);
            after.Some? && exists t, i :: t in after.value.turns && t.id == turn && i in t.items && UserMessageMatches(i, operation, prompt)
  {
    var t := GetTurn(p.turns, turn);
    assert TurnOk(t);
    AddItemOk(t, item);
    var t' := AddItem(t, item);
    SetTurnBounded(p.turns, t');
    var shown := Project(item).value;
    assert t'.items[|t'.items| - 1] == shown;
    assert t' in SetTurn(p.turns, t') && shown in t'.items && UserMessageMatches(shown, operation, prompt);
  }

  // --------------------------------------------------------- the reader itself

  lemma BlockOfFile(r: Reader, content: Bytes, offset: nat, count: nat, parse: Parser, thread: Thread)
    requires offset + count <= |content| && HasRead(r, content[..offset], parse, thread)
    ensures var after := FeedBlock(r, content[offset..offset + count], parse, thread);
            && (after.Some? ==> HasRead(after.value, content[..offset + count], parse, thread))
            && (after == None ==> Batch(content, parse, thread) == None || |content| > MaxPending())
  {
    BlockExtends(r, content[..offset], content[offset..offset + count], parse, thread);
    assert content[..offset] + content[offset..offset + count] == content[..offset + count];
    if Batch(content, parse, thread).Some? { PrefixProjects(content, offset + count, parse, thread); }
  }

  datatype BlockOutcome = More | Empty | Bad

  /** What open and stat make of the path: nothing, something that is not a file, or the file as it is at this moment. */
  datatype Opened = Unopened | Irregular | File(content: Bytes)

  class RolloutHistory {
    var path: string
    var offset: nat
    var pending: Bytes
    var projection: Projection
    var invalid: bool

    constructor ()
      ensures path == "" && offset == 0 && pending == [] && projection == Blank && !invalid
    {
      path, offset, pending, projection, invalid := "", 0, [], Blank, false;
    }

    /** Has read exactly the first offset bytes of the transcript. */
    ghost predicate Reflects(content: Bytes, parse: Parser, thread: Thread)
      reads this
    {
      offset <= |content| && HasRead(Reader(pending, projection), content[..offset], parse, thread)
    }

    /** Consume the complete lines of what is pending. */
    method DrainPending(parse: Parser, thread: Thread) returns (ok: bool)
      modifies this`pending, this`projection
      ensures ok <==> Drain(Reader(old(pending), old(projection)), parse, thread).Some?
      ensures ok ==> Some(Reader(pending, projection)) == Drain(Reader(old(pending), old(projection)), parse, thread)
    {
      var end := NewlineAt(pending);
      while end < |pending|
        invariant end == NewlineAt(pending)
        invariant Drain(Reader(pending, projection), parse, thread) == Drain(Reader(old(pending), old(projection)), parse, thread)
        decreases |pending|
      {
        var line := pending[..end];
        pending := pending[end + 1..];
        if line != [] {
          var next := Consume(projection, parse(line), thread);
          if next == None { return false; }
          projection := next.value;
        }
        end := NewlineAt(pending);
      }
      return true;
    }

    /** One file.read of up to a block; a read may come up short, or empty if the file shrinks meanwhile. */
    method ReadBlock(content: Bytes, parse: Parser, thread: Thread) returns (outcome: BlockOutcome)
      requires Reflects(content, parse, thread) && offset < |content|
      modifies this`offset, this`pending, this`projection
      ensures outcome != Bad ==> Reflects(content, parse, thread)
      ensures if outcome == Empty then offset == old(offset) else old(offset) < offset <= |content|
      ensures outcome == Bad ==> Batch(content, parse, thread) == None || |content| > MaxPending()
    {
      hide HasRead, Batch, Drain, BlockSize, Rest, NewlineAt, MaxPending;
      var count: nat :| count <= BlockSize() && count <= |content| - offset;
      if count == 0 { return Empty; }
      var block := content[offset..offset + count];
      ghost var before := Reader(pending, projection);
      BlockOfFile(before, content, offset, count, parse, thread);
      pending, offset := pending + block, offset + count;
      var ok := DrainPending(parse, thread);
      if !ok || |pending| > MaxPending() { return Bad; }
      assert FeedBlock(before, block, parse, thread) == Some(Reader(pending, projection));
      return More;
    }

    /**
     * read(): None is an exception. What it returns is the batch projection of
     * what has been read; a file that projects fails only if the identifying
     * record is not in yet. A failed open leaves the reader healthy.
     */
    method Read(thread: Thread, absolute: bool, file: Opened, parse: Parser) returns (turns: Option<seq<Turn>>)
      requires file.File? && !invalid && thread.path == Some(path) ==>
                 offset > |file.content| || Reflects(file.content, parse, thread)
      modifies this
      ensures thread.path == None || !absolute ==> turns == None && path == old(path) && invalid == old(invalid)
      ensures thread.path.Some? && absolute ==> path == thread.path.value && (turns == None <==> invalid || file == Unopened)
      ensures thread.path.Some? && absolute && file == Unopened ==>
                if path == old(path) then unchanged(this) else Reader(pending, projection) == Fresh && offset == 0 && !invalid
      ensures old(invalid) && thread.path == Some(old(path)) ==> turns == None
      ensures turns.Some? ==> file.File? && Reflects(file.content, parse, thread)
      ensures turns.Some? ==> Some(Projection(true, turns.value)) == Batch(file.content[..offset], parse, thread)
      ensures turns == None && thread.path.Some? && absolute && file.File? && |file.content| <= MaxPending() &&
              Batch(file.content, parse, thread).Some? &&
              (thread.path == Some(old(path)) ==> !old(invalid) && old(offset) <= |file.content|) ==>
                offset <= |file.content| && !Verified(file.content[..offset], parse, thread)
    {
      turns := None;
      if thread.path == None || !absolute { return; }
      if path != thread.path.value {
        path, offset, pending, projection, invalid := thread.path.value, 0, [], Blank, false;
        assert file.File? ==> file.content[..0] == [];
      }
      hide Batch, Rest, Drain;
      if invalid || file == Unopened { return; }
      invalid := true;
      if file == Irregular { return; }
      var content := file.content;
      if |content| < offset { return; }
      while offset < |content|
        invariant invalid && path == thread.path.value && Reflects(content, parse, thread)
        decreases |content| - offset
      {
        var outcome := ReadBlock(content, parse, thread);
        if outcome == Bad { return; }
        if outcome == Empty { break; }
      }
      if !projection.verified { return; }
      invalid := false;
      turns := Some(projection.turns);
    }
  }
}
