/** The connection task beside the callers: it empties the update queue before it reads, and it writes
    after it reads. */
module Registration {
  import opened Bytes
  import opened Decoding
  import opened CSeqs
  import opened TypedHeaders
  import opened Pending
  import opened PendingInvariants

  datatype Stage = Draining | Reading | Writing

  /** `written` counts the requests that reached the wire; they leave in the order of their calls. */
  datatype Task = Task(world: World, stage: Stage, written: nat)

  datatype Turn =
    | Caller(e: Event)
    | ApplyUpdate
    | QueueEmpty
    | ReadResponse(response: Message)
    | StopReading
    | WriteRequest
    | StopWriting
    | DropReceiver

  /** Callers and futures act at any time; the connection follows its stages. */
  function TakeTurn(k: Task, turn: Turn): Task {
    var w := k.world;
    match turn
    case Caller(e) =>
      if e.DoBegin? || e.DoCommit? || e.DoPoll? || e.DoDrop? || e.DoShut? then k.(world := Move(w, e)) else k
    case ApplyUpdate => if k.stage == Draining then k.(world := Apply(w)) else k
    case QueueEmpty => if k.stage == Draining && w.updates == [] then k.(stage := Reading) else k
    case ReadResponse(m) => if k.stage == Reading then k.(world := Respond(w, m)) else k
    case StopReading => if k.stage == Reading then k.(stage := Writing) else k
    case WriteRequest => if k.stage == Writing && k.written < w.sent then k.(written := k.written + 1) else k
    case StopWriting => if k.stage == Writing then k.(stage := Draining) else k
    case DropReceiver => k.(world := Close(w))
  }

  function Turns(k: Task, turns: seq<Turn>): Task
    decreases |turns|
  {
    if turns == [] then k else Turns(TakeTurn(k, turns[0]), turns[1..])
  }

  predicate TurnsPaced(k: Task, turns: seq<Turn>)
    decreases |turns|
  {
    turns != [] ==>
      && (turns[0] == Caller(DoBegin) ==> NextIsFree(k.world))
      && TurnsPaced(TakeTurn(k, turns[0]), turns[1..])
  }

  /** While responses are read, what is written is registered. */
  predicate WrittenRegistered(w: World, written: nat) {
    forall a: nat :: a < |w.attempts| ==> RegisteredIfWritten(w.attempts[a], written)
  }

  predicate RegisteredIfWritten(t: Attempt, written: nat) {
    Live(t) && t.number < written ==> t.since.Some?
  }

  predicate TaskInv(k: Task) {
    && Inv(k.world)
    && k.written <= k.world.sent
    && (k.stage == Reading ==> WrittenRegistered(k.world, k.written))
  }

  /** A step of the world keeps the attempts registered and gives a new one the next number. */
  predicate KeepsRegistered(w: World, w': World) {
    && w.sent <= w'.sent
    && |w.attempts| <= |w'.attempts|
    && forall a: nat :: a < |w'.attempts| ==>
         if a < |w.attempts| then Keeps(w.attempts[a], w'.attempts[a]) else w'.attempts[a].number >= w.sent
  }

  predicate Keeps(t: Attempt, t': Attempt) {
    t'.number == t.number && (Live(t') ==> Live(t)) && (t.since.Some? ==> t'.since.Some?)
  }

  lemma {:induction false} DrainKeepsRegistered(w: World)
    ensures KeepsRegistered(w, Drain(w))
    decreases |w.updates|
  {
    if w.alive && w.updates != [] {
      ApplyKeepsRegistered(w);
      DrainKeepsRegistered(Apply(w));
      var mid, w' := Apply(w), Drain(w);
      forall a: nat | a < |w'.attempts|
        ensures if a < |w.attempts| then Keeps(w.attempts[a], w'.attempts[a]) else w'.attempts[a].number >= w.sent
      {
        assert a < |mid.attempts| ==> Keeps(mid.attempts[a], w'.attempts[a]);
        assert a < |w.attempts| ==> Keeps(w.attempts[a], mid.attempts[a]);
      }
    }
  }

  lemma ApplyKeepsRegistered(w: World)
    ensures KeepsRegistered(w, Apply(w))
  {
  }

  lemma BeginKeepsRegistered(w: World)
    ensures KeepsRegistered(w, Begin(w))
  {
  }

  lemma CommitKeepsRegistered(w: World, accepted: bool)
    ensures KeepsRegistered(w, Commit(w, accepted))
  {
  }

  lemma RespondKeepsRegistered(w: World, m: Message)
    ensures KeepsRegistered(w, Respond(w, m))
  {
    hide CSeqOf;
  }

  lemma PollKeepsRegistered(w: World, a: nat, expired: bool)
    ensures KeepsRegistered(w, Poll(w, a, expired))
  {
  }

  lemma DropKeepsRegistered(w: World, a: nat)
    ensures KeepsRegistered(w, Drop(w, a)) && KeepsRegistered(w, Shut(w, a))
  {
  }

  lemma CloseKeepsRegistered(w: World)
    ensures KeepsRegistered(w, Close(w))
  {
    DrainKeepsRegistered(w);
    hide Drain;
  }

  lemma MoveKeepsRegistered(w: World, e: Event)
    ensures KeepsRegistered(w, Move(w, e))
  {
    hide KeepsRegistered, Begin, Commit, Apply, Respond, Poll, Drop, Shut, Close;
    match e
    case DoBegin => BeginKeepsRegistered(w);
    case DoCommit(accepted) => CommitKeepsRegistered(w, accepted);
    case DoApply => ApplyKeepsRegistered(w);
    case DoRespond(m) => RespondKeepsRegistered(w, m);
    case DoPoll(a, expired) => PollKeepsRegistered(w, a, expired);
    case DoDrop(a) => DropKeepsRegistered(w, a);
    case DoShut(a) => DropKeepsRegistered(w, a);
    case DoClose => CloseKeepsRegistered(w);
  }

  lemma StillRegistered(w: World, w': World, written: nat)
    requires KeepsRegistered(w, w') && WrittenRegistered(w, written) && written <= w.sent
    ensures WrittenRegistered(w', written)
  {
    forall a: nat | a < |w'.attempts| ensures RegisteredIfWritten(w'.attempts[a], written) {
      if a < |w.attempts| {
        assert Keeps(w.attempts[a], w'.attempts[a]) && RegisteredIfWritten(w.attempts[a], written);
      }
    }
  }

  /** With no update under way every live request is registered. */
  lemma EmptyQueueRegisters(w: World, written: nat)
    requires Inv(w) && w.updates == []
    ensures WrittenRegistered(w, written)
  {
    forall a: nat | a < |w.attempts| ensures RegisteredIfWritten(w.attempts[a], written) {
      assert AttemptOk(w, a);
    }
  }

  lemma MoveKeepsTask(k: Task, e: Event)
    requires TaskInv(k) && (e == DoBegin ==> NextIsFree(k.world))
    ensures TaskInv(k.(world := Move(k.world, e)))
  {
    hide Inv, Move, WrittenRegistered, NextIsFree;
    StepKeeps(k.world, e);
    MoveKeepsRegistered(k.world, e);
    if k.stage == Reading {
      StillRegistered(k.world, Move(k.world, e), k.written);
    }
  }

  lemma TurnKeeps(k: Task, turn: Turn)
    requires TaskInv(k) && (turn == Caller(DoBegin) ==> NextIsFree(k.world))
    ensures TaskInv(TakeTurn(k, turn))
  {
    hide Inv, WrittenRegistered, NextIsFree, Begin, Commit, Apply, Respond, Poll, Drop, Shut, Close;
    match turn
    case Caller(e) => MoveKeepsTask(k, e);
    case ApplyUpdate => MoveKeepsTask(k, DoApply);
    case ReadResponse(m) => MoveKeepsTask(k, DoRespond(m));
    case DropReceiver => MoveKeepsTask(k, DoClose);
    case QueueEmpty => if k.world.updates == [] { EmptyQueueRegisters(k.world, k.written); }
    case _ =>
  }

  lemma {:induction false} TurnsKeep(k: Task, turns: seq<Turn>)
    requires TaskInv(k) && TurnsPaced(k, turns)
    ensures TaskInv(Turns(k, turns))
    decreases |turns|
  {
    hide TaskInv, NextIsFree, TakeTurn;
    if turns != [] {
      TurnKeeps(k, turns[0]);
      TurnsKeep(TakeTurn(k, turns[0]), turns[1..]);
    }
  }

  function TaskOf(start: cseq, turns: seq<Turn>): Task {
    Turns(Task(Initial(start), Draining, 0), turns)
  }

  predicate TaskReached(start: cseq, turns: seq<Turn>) {
    TurnsPaced(Task(Initial(start), Draining, 0), turns)
  }

  /** Whenever responses are read, each written request that still waits is registered, so that a
      response to it is handed to its owner: it becomes the last thing the owner's chain says. */
  lemma ResponseFindsItsRequest(start: cseq, turns: seq<Turn>, a: nat, m: Message)
    requires TaskReached(start, turns) && TaskOf(start, turns).stage == Reading
    requires var k := TaskOf(start, turns);
      && a < |k.world.attempts| && k.world.attempts[a].status == Waiting
      && k.world.attempts[a].number < k.written
    requires var w := TaskOf(start, turns).world;
      m.Response? && CSeqOf(m) == Some(CSeqNo(w, w.attempts[a]))
    ensures var w := TaskOf(start, turns).world; var t := w.attempts[a];
      && t.since.Some?
      && var said, said' := t.seen + Follow(w.cells, t.cell), t.seen + Follow(Respond(w, m).cells, t.cell);
         said' == if Ended(said) then said else said + [Meaning(m)]
  {
    InitialKeeps(start);
    TurnsKeep(Task(Initial(start), Draining, 0), turns);
    var k := TaskOf(start, turns);
    hide TaskOf, TaskReached, Matching, CSeqOf;
    Delivered(k.world, a, m, k.written);
  }

  lemma Delivered(w: World, a: nat, m: Message, written: nat)
    requires Inv(w) && WrittenRegistered(w, written)
    requires a < |w.attempts| && w.attempts[a].status == Waiting && w.attempts[a].number < written
    requires m.Response? && CSeqOf(m) == Some(CSeqNo(w, w.attempts[a]))
    ensures var t := w.attempts[a];
      && t.since.Some?
      && var said, said' := t.seen + Follow(w.cells, t.cell), t.seen + Follow(Respond(w, m).cells, t.cell);
         said' == if Ended(said) then said else said + [Meaning(m)]
  {
    var t, w' := w.attempts[a], Respond(w, m);
    assert AttemptOk(w, a) && NumberOk(w, a) && RegisteredIfWritten(t, written);
    AllAreLinked(w);
    if w.alive {
      RespondKeeps(w, m);
      SameAttempts(w, m);
      assert AttemptOk(w', a);
      ExpectedAfter(w, w', t, m);
    } else {
      EndTold(w, t);
      EndOfChain(w.cells, t.cell);
    }
  }

  lemma SameAttempts(w: World, m: Message)
    requires w.alive && m.Response?
    ensures var w' := Respond(w, m);
      && w'.attempts == w.attempts && w'.alive && w'.start == w.start && w'.arrived == w.arrived + [m]
  {
  }

  // ---------------------------------------------------------------- one poll of the connection

  function Repeated(turn: Turn, n: nat): seq<Turn> {
    seq(n, _ => turn)
  }

  function Reads(ms: seq<Message>): seq<Turn> {
    seq(|ms|, i requires 0 <= i < |ms| => ReadResponse(ms[i]))
  }

  /** The queue is emptied and the first responses are read. */
  function ReadTurns(w: World, ms: seq<Message>): seq<Turn> {
    Repeated(ApplyUpdate, |w.updates|) + [QueueEmpty] + Reads(ms)
  }

  /** Then the sender writes, and the response receiver may go. */
  function WriteTurns(kept: bool, writes: nat): seq<Turn> {
    [StopReading] + Repeated(WriteRequest, writes) + [StopWriting] + if kept then [] else [DropReceiver]
  }

  function PollTurns(w: World, ms: seq<Message>, kept: bool, writes: nat): seq<Turn> {
    ReadTurns(w, ms) + WriteTurns(kept, writes)
  }

  /** No more is written than there is. */
  function Wrote(written: nat, writes: nat, sent: nat): nat {
    if written + writes <= sent then written + writes else if written <= sent then sent else written
  }

  lemma {:induction false} TurnsAppend(k: Task, a: seq<Turn>, b: seq<Turn>)
    ensures Turns(k, a + b) == Turns(Turns(k, a), b)
    ensures TurnsPaced(k, a + b) <==> TurnsPaced(k, a) && TurnsPaced(Turns(k, a), b)
    decreases |a|
  {
    hide TakeTurn, NextIsFree;
    if a == [] {
      assert a + b == b;
    } else {
      assert (a + b)[0] == a[0] && (a + b)[1..] == a[1..] + b;
      TurnsAppend(TakeTurn(k, a[0]), a[1..], b);
    }
  }

  lemma OneTurn(k: Task, turn: Turn)
    ensures Turns(k, [turn]) == TakeTurn(k, turn)
  {
    hide TakeTurn;
    assert [turn][1..] == [];
  }

  /** The connection's own turns need no free number. */
  lemma {:induction false} OwnTurnsArePaced(k: Task, turns: seq<Turn>)
    requires forall i :: 0 <= i < |turns| ==> !turns[i].Caller?
    ensures TurnsPaced(k, turns)
    decreases |turns|
  {
    hide TakeTurn, NextIsFree;
    if turns != [] {
      OwnTurnsArePaced(TakeTurn(k, turns[0]), turns[1..]);
    }
  }

  lemma {:induction false} DrainTurns(k: Task)
    requires k.stage == Draining && k.world.alive
    ensures Turns(k, Repeated(ApplyUpdate, |k.world.updates|)) == k.(world := Drain(k.world))
    decreases |k.world.updates|
  {
    var turns := Repeated(ApplyUpdate, |k.world.updates|);
    if turns != [] {
      var next := TakeTurn(k, ApplyUpdate);
      assert turns[1..] == Repeated(ApplyUpdate, |next.world.updates|);
      DrainTurns(next);
    }
  }

  lemma {:induction false} ReadsHeard(k: Task, ms: seq<Message>)
    requires k.stage == Reading
    ensures Turns(k, Reads(ms)) == k.(world := Heard(k.world, ms))
    decreases |ms|
  {
    hide Respond;
    if ms != [] {
      var before, last := ms[..|ms| - 1], ms[|ms| - 1];
      ReadsHeard(k, before);
      assert Reads(ms) == Reads(before) + [ReadResponse(last)];
      TurnsAppend(k, Reads(before), [ReadResponse(last)]);
      OneTurn(Turns(k, Reads(before)), ReadResponse(last));
    }
  }

  lemma {:induction false} WritesWrite(k: Task, n: nat)
    requires k.stage == Writing
    ensures Turns(k, Repeated(WriteRequest, n)) == k.(written := Wrote(k.written, n, k.world.sent))
    decreases n
  {
    if n > 0 {
      var next := TakeTurn(k, WriteRequest);
      assert Repeated(WriteRequest, n)[1..] == Repeated(WriteRequest, n - 1);
      WritesWrite(next, n - 1);
    }
  }

  /** While responses are read, the task is where the machine reads them. */
  lemma ReadTurnsRead(k: Task, ms: seq<Message>)
    requires k.stage == Draining && (k.world.alive || k.world.updates == [])
    ensures Turns(k, ReadTurns(k.world, ms)) == Task(Heard(Drain(k.world), ms), Reading, k.written)
    ensures TurnsPaced(k, ReadTurns(k.world, ms))
  {
    var drain := Repeated(ApplyUpdate, |k.world.updates|);
    if k.world.alive {
      DrainTurns(k);
      DrainEmpties(k.world);
    } else {
      assert drain == [];
    }
    hide Drain, Heard, NextIsFree;
    var drained := k.(world := Drain(k.world));
    OneTurn(drained, QueueEmpty);
    TurnsAppend(k, drain, [QueueEmpty]);
    TurnsAppend(k, drain + [QueueEmpty], Reads(ms));
    ReadsHeard(drained.(stage := Reading), ms);
    OwnTurnsArePaced(k, ReadTurns(k.world, ms));
  }

  lemma WriteTurnsWrite(k: Task, kept: bool, writes: nat)
    requires k.stage == Reading
    ensures Turns(k, WriteTurns(kept, writes)) ==
      Task(if kept then k.world else Close(k.world), Draining, Wrote(k.written, writes, k.world.sent))
    ensures TurnsPaced(k, WriteTurns(kept, writes))
  {
    hide Close, NextIsFree;
    OwnTurnsArePaced(k, WriteTurns(kept, writes));
    var write, drop := Repeated(WriteRequest, writes), if kept then [] else [DropReceiver];
    var writing := TakeTurn(k, StopReading);
    OneTurn(k, StopReading);
    TurnsAppend(k, [StopReading], write);
    WritesWrite(writing, writes);
    var wrote := Turns(writing, write);
    OneTurn(wrote, StopWriting);
    TurnsAppend(k, [StopReading] + write, [StopWriting]);
    TurnsAppend(k, [StopReading] + write + [StopWriting], drop);
    if !kept {
      OneTurn(TakeTurn(wrote, StopWriting), DropReceiver);
    }
  }

  lemma {:induction false} HeardKeepsSent(w: World, ms: seq<Message>)
    ensures Heard(w, ms).sent == w.sent
    decreases |ms|
  {
    hide CSeqOf;
    if ms != [] {
      HeardKeepsSent(w, ms[..|ms| - 1]);
    }
  }

  lemma {:induction false} DrainKeepsSent(w: World)
    ensures Drain(w).sent == w.sent
    decreases |w.updates|
  {
    if w.alive && w.updates != [] {
      DrainKeepsSent(Apply(w));
    }
  }

  lemma PolledKeepsSent(w: World, ms: seq<Message>, kept: bool)
    ensures Polled(w, ms, kept).sent == w.sent
  {
    DrainKeepsSent(w);
    HeardKeepsSent(Drain(w), ms);
    DrainKeepsSent(Heard(Drain(w), ms));
    hide Drain, Heard;
  }

  /** What a poll does to the pending requests and to the wire is a round of the stages. */
  lemma PollIsTurns(k: Task, ms: seq<Message>, kept: bool, writes: nat)
    requires k.stage == Draining && (k.world.alive || k.world.updates == [])
    ensures Turns(k, PollTurns(k.world, ms, kept, writes)) ==
      Task(Polled(k.world, ms, kept), Draining, Wrote(k.written, writes, k.world.sent))
    ensures TurnsPaced(k, PollTurns(k.world, ms, kept, writes))
  {
    hide Drain, Heard, Close, NextIsFree, Turns, TurnsPaced, ReadTurns, WriteTurns, Wrote;
    var read := Task(Heard(Drain(k.world), ms), Reading, k.written);
    ReadTurnsRead(k, ms);
    WriteTurnsWrite(read, kept, writes);
    DrainKeepsSent(k.world);
    HeardKeepsSent(Drain(k.world), ms);
    TurnsAppend(k, ReadTurns(k.world, ms), WriteTurns(kept, writes));
  }

  /** So a response that a poll reads is handed to its owner, if its request was written by then: for the
      `i`-th response of the poll, after those before it. */
  lemma PolledResponseFinds(start: cseq, turns: seq<Turn>, ms: seq<Message>, i: nat, a: nat)
    requires TaskReached(start, turns) && TaskOf(start, turns).stage == Draining && i < |ms| && ms[i].Response?
    requires var k := TaskOf(start, turns);
      k.world.alive || k.world.updates == []
    requires var k := TaskOf(start, turns); var w := Heard(Drain(k.world), ms[..i]);
      && a < |w.attempts| && w.attempts[a].status == Waiting && w.attempts[a].number < k.written
      && CSeqOf(ms[i]) == Some(CSeqNo(w, w.attempts[a]))
    ensures var w := Heard(Drain(TaskOf(start, turns).world), ms[..i]); var t := w.attempts[a];
      var said, said' := t.seen + Follow(w.cells, t.cell), t.seen + Follow(Respond(w, ms[i]).cells, t.cell);
      t.since.Some? && said' == if Ended(said) then said else said + [Meaning(ms[i])]
  {
    var k := TaskOf(start, turns);
    var more := ReadTurns(k.world, ms[..i]);
    ReadTurnsRead(k, ms[..i]);
    TurnsAppend(Task(Initial(start), Draining, 0), turns, more);
    hide Turns, TurnsPaced, Follow, Respond, Heard, Drain, CSeqOf, Ended, Meaning;
    ResponseFindsItsRequest(start, turns + more, a, ms[i]);
  }
}
