/** The response receiver, the handle and the futures as objects that share the one-shot cells and the
    update queue. Each method takes one step of the pending-request system. */
module Matchers {
  import opened Bytes
  import opened Decoding
  import opened CSeqs
  import opened TypedHeaders
  import opened Statuses
  import opened Pending
  import opened PendingInvariants

  /** The update queue and the cells: `dropped` are the owners whose receiving ends are gone. The
      attempts and the arrivals are history. */
  class Channels {
    const start: cseq
    var sent: nat
    var owners: nat
    var cells: seq<Cell>
    var dropped: set<nat>
    var updates: seq<Update>
    var alive: bool
    ghost var attempts: seq<Attempt>
    ghost var arrived: seq<Message>

    constructor (start: cseq)
      ensures this.start == start && sent == 0 && cells == [] && updates == [] && alive
      ensures attempts == [] && arrived == [] && Valid()
    {
      this.start := start;
      sent, owners, cells, dropped, updates, alive, attempts, arrived := 0, 0, [], {}, [], true, [], [];
    }

    ghost predicate Valid()
      reads this
    {
      && owners == |attempts|
      && forall a: nat :: a in dropped <==> a < |attempts| && attempts[a].status == Gone
    }

    ghost function World(pending: map<cseq, nat>): World
      reads this
    {
      Pending.World(start, sent, attempts, cells, updates, pending, alive, arrived)
    }

    /** Sending into a cell fails if its receiving end was closed or dropped. */
    method Send(id: nat, p: Payload) returns (ok: bool)
      requires Valid() && id < |cells| && cells[id].owner < |attempts|
      modifies `cells
      ensures ok == (!old(cells)[id].closed && attempts[old(cells)[id].owner].status != Gone)
      ensures cells == if ok then old(cells)[id := old(cells)[id].(value := Some(p))] else old(cells)
    {
      ok := !cells[id].closed && cells[id].owner !in dropped;
      if ok {
        cells := cells[id := cells[id].(value := Some(p))];
      }
    }

    method NewCell(owner: nat) returns (id: nat)
      modifies `cells
      ensures id == old(|cells|) && cells == old(cells) + [Cell(owner, None, false)]
    {
      id := |cells|;
      cells := cells + [Cell(owner, None, false)];
    }

    method Enqueue(u: Update) returns (ok: bool)
      modifies `updates
      ensures ok == alive
      ensures updates == if alive then old(updates) + [u] else old(updates)
    {
      if alive {
        updates := updates + [u];
      }
      return alive;
    }
  }

  class ResponseReceiver {
    const net: Channels
    var pending: map<cseq, nat>

    ghost function State(): World
      reads this, net
    {
      net.World(pending)
    }

    /** What its methods need, and what holds at any pace of sending. */
    ghost predicate Valid()
      reads this, net
    {
      net.Valid() && InRange(State())
    }

    /** The whole invariant, which its methods keep. */
    ghost predicate IsSound()
      reads this, net
    {
      net.Valid() && Inv(State())
    }

    constructor (net: Channels)
      requires net.Valid() && net.World(map[]) == Initial(net.start)
      ensures this.net == net && Valid() && IsSound() && State() == Initial(net.start)
    {
      this.net := net;
      pending := map[];
      new;
      InitialKeeps(net.start);
    }

    /** Takes the first update of the queue. */
    method HandleUpdate()
      requires Valid() && net.alive && net.updates != []
      modifies this, net
      ensures Valid() && State() == Apply(old(State()))
      ensures net.updates == old(net.updates)[1..]
      ensures old(IsSound()) ==> IsSound()
    {
      ghost var before := State();
      ApplyInRange(before);
      if Inv(before) {
        ApplyKeeps(before);
      }
      hide Inv;
      var update := net.updates[0];
      net.attempts := Registered(State(), update);
      net.updates := net.updates[1..];
      match update
      case Add(c, cell) => pending := pending[c := cell];
      case Remove(c) => pending := pending - {c};
    }

    /** Takes updates until there are none. */
    method PollUpdates()
      requires Valid()
      modifies this, net
      ensures Valid() && State() == Drain(old(State())) && net.alive == old(net.alive)
      ensures old(IsSound()) ==> IsSound()
    {
      ghost var start := State();
      if Inv(start) {
        DrainKeeps(start);
      }
      while net.alive && net.updates != []
        invariant Valid() && net.alive == old(net.alive)
        invariant Drain(State()) == Drain(start)
        decreases |net.updates|
      {
        hide Inv, InRange, Apply;
        HandleUpdate();
      }
    }

    /** A continue is passed on with a new cell in place of the old one, if the owner still listens. */
    method PassOn(c: cseq)
      requires net.Valid() && c in pending
      requires pending[c] < |net.cells| && net.cells[pending[c]].owner < |net.attempts|
      modifies `pending, net`cells
      ensures var id, cells := old(pending[c]), old(net.cells);
        if IsOpen(old(State()), id) then
          && net.cells ==
               cells[id := cells[id].(value := Some(Continue(|cells|)))] + [Cell(cells[id].owner, None, false)]
          && pending == old(pending)[c := |cells|]
        else net.cells == cells && pending == old(pending) - {c}
    {
      var id := pending[c];
      var owner := net.cells[id].owner;
      var ok := net.Send(id, Continue(|net.cells|));
      if ok {
        var next := net.NewCell(owner);
        pending := pending[c := next];
      } else {
        pending := pending - {c};
      }
    }

    /** Any other response ends the request. */
    method Conclude(c: cseq, response: Message)
      requires net.Valid() && c in pending
      requires pending[c] < |net.cells| && net.cells[pending[c]].owner < |net.attempts|
      modifies `pending, net`cells
      ensures pending == old(pending) - {c}
      ensures var id, cells := old(pending[c]), old(net.cells);
        net.cells ==
          if IsOpen(old(State()), id) then cells[id := cells[id].(value := Some(Final(response)))] else cells
    {
      var id := pending[c];
      pending := pending - {c};
      var _ := net.Send(id, Final(response));
    }

    method HandleResponse(response: Message)
      requires Valid() && net.alive && response.Response?
      modifies this, net
      ensures Valid() && State() == Respond(old(State()), response) && net.alive
      ensures old(IsSound()) ==> IsSound()
    {
      hide Inv, InRange, CSeqOf;
      RespondIsSafe(State(), response);
      net.arrived := net.arrived + [response];
      match CSeqOf(response)
      case None =>
      case Some(c) =>
        if c in pending {
          if response.status == CONTINUE {
            PassOn(c);
          } else {
            Conclude(c, response);
          }
        }
    }

    /** Tells every pending request, in any order, that no response will come. */
    method RemovePendingRequests()
      requires Valid() && net.alive
      modifies `pending, net`cells
      ensures net.Valid() && pending == map[]
      ensures net.cells == Silenced(old(State()), old(pending).Values)
    {
      ghost var w := State();
      PendingInRange(w);
      hide InRange;
      var rest := pending;
      pending := map[];
      ghost var told: set<nat> := {};
      NoneSilenced(w);
      hide Silenced;
      while rest != map[]
        invariant pending == map[]
        invariant net.cells == Silenced(w, told) && told + rest.Values == w.pending.Values
        decreases |rest|
      {
        var c := AnyKey(rest);
        var id := rest[c];
        assert id in w.pending.Values;
        OneSilenced(w, told, id);
        var _ := net.Send(id, Cancelled);
        Removes(rest, c);
        AddOne(told, rest.Values, (rest - {c}).Values, id);
        rest, told := rest - {c}, told + {id};
      }
      assert told + rest.Values == told;
    }

    /** The receiver is dropped: the remaining updates first, then the cancellations. */
    method Close()
      requires Valid()
      modifies this, net
      ensures Valid() && State() == Pending.Close(old(State())) && !net.alive
      ensures old(IsSound()) ==> IsSound()
    {
      if net.alive {
        ghost var before := State();
        if Inv(before) {
          DrainKeeps(before);
          DrainEmpties(before);
          SilenceKeeps(Drain(before));
        }
        DrainEmpties(before);
        hide Inv;
        PollUpdates();
        SilenceInRange(State());
        hide InRange, Silenced, Drain;
        RemovePendingRequests();
        net.alive := false;
      }
    }
  }

  method AnyKey(pending: map<cseq, nat>) returns (c: cseq)
    requires pending != map[]
    ensures c in pending && pending[c] in pending.Values
  {
    assert pending.Keys != {};
    c :| c in pending;
  }

  lemma RespondIsSafe(w: World, m: Message)
    requires InRange(w)
    ensures InRange(Respond(w, m)) && (Inv(w) ==> Inv(Respond(w, m)))
    ensures forall c :: c in w.pending ==>
      w.pending[c] < |w.cells| && w.cells[w.pending[c]].owner < |w.attempts|
  {
    RespondInRange(w, m);
    if Inv(w) {
      hide Inv;
      RespondKeeps(w, m);
    }
  }

  lemma PendingInRange(w: World)
    requires InRange(w)
    ensures forall id: nat :: id in w.pending.Values ==> id < |w.cells| && w.cells[id].owner < |w.attempts|
  {
    forall id: nat | id in w.pending.Values
      ensures id < |w.cells| && w.cells[id].owner < |w.attempts|
    {
      var c :| c in w.pending && w.pending[c] == id;
    }
  }

  lemma AddOne(told: set<nat>, ids: set<nat>, rest: set<nat>, id: nat)
    requires rest + {id} == ids
    ensures (told + {id}) + rest == told + ids
  {
  }

  lemma NoneSilenced(w: World)
    ensures Silenced(w, {}) == w.cells
  {
  }

  lemma OneSilenced(w: World, told: set<nat>, id: nat)
    requires id < |w.cells| && w.cells[id].owner < |w.attempts|
    ensures var cells := Silenced(w, told);
      && |cells| == |w.cells| && cells[id].owner == w.cells[id].owner && cells[id].closed == w.cells[id].closed
      && Silenced(w, told + {id}) ==
           if IsOpen(w, id) then cells[id := cells[id].(value := Some(Cancelled))] else cells
  {
  }

  lemma Removes(pending: map<cseq, nat>, c: cseq)
    requires c in pending
    ensures (pending - {c}).Values + {pending[c]} == pending.Values
    ensures |pending - {c}| < |pending|
  {
    assert (pending - {c}).Keys == pending.Keys - {c};
    forall id: nat | id in pending.Values
      ensures id in (pending - {c}).Values + {pending[c]}
    {
      var d :| d in pending && pending[d] == id;
      assert d != c ==> d in pending - {c};
    }
  }

  // ---------------------------------------------------------------- the futures

  datatype Answer =
    | Answered(response: Message)
    | StillWaiting
    | RequestCancelled
    | LongTimeout
    | ShortTimeout

  predicate Due(deadline: Option<nat>, now: nat) {
    deadline.Some? && deadline.value <= now
  }

  function DeadlineAfter(since: nat, duration: Option<nat>): Option<nat> {
    if duration.Some? then Some(since + duration.value) else None
  }

  /** A poll of a future: when it was, and what it read. */
  datatype Polled = Polled(at: nat, said: Option<Delivery>)

  /** The time of the last continue that was read, or of the call. */
  function Since(sentAt: nat, polls: seq<Polled>): nat {
    if polls == [] then sentAt
    else if polls[|polls| - 1].said == Some(Cont) then polls[|polls| - 1].at
    else Since(sentAt, polls[..|polls| - 1])
  }

  predicate IsLastContinue(polls: seq<Polled>, i: int) {
    && 0 <= i < |polls| && polls[i].said == Some(Cont)
    && forall j :: i < j < |polls| ==> polls[j].said != Some(Cont)
  }

  lemma {:induction false} SinceIsLast(sentAt: nat, polls: seq<Polled>)
    ensures (forall i :: !IsLastContinue(polls, i)) ==> Since(sentAt, polls) == sentAt
    ensures forall i :: IsLastContinue(polls, i) ==> Since(sentAt, polls) == polls[i].at
    decreases |polls|
  {
    if polls != [] {
      var n := |polls| - 1;
      var before := polls[..n];
      SinceIsLast(sentAt, before);
      forall i ensures IsLastContinue(polls, i) <==>
        if polls[n].said == Some(Cont) then i == n else IsLastContinue(before, i)
      {
        assert IsLastContinue(before, i) ==> polls[i] == before[i];
        assert 0 <= i < n ==> before[i] == polls[i];
      }
      assert polls[n].said == Some(Cont) ==> IsLastContinue(polls, n);
      hide IsLastContinue;
    }
  }

  /** What the polls read, one after the other. */
  function Said(polls: seq<Polled>): seq<Delivery> {
    if polls == [] then []
    else
      var last := polls[|polls| - 1];
      Said(polls[..|polls| - 1]) + if last.said.Some? then [last.said.value] else []
  }

  lemma OnePollMore(sentAt: nat, polls: seq<Polled>, p: Polled)
    ensures Said(polls + [p]) == Said(polls) + if p.said.Some? then [p.said.value] else []
    ensures Since(sentAt, polls + [p]) == if p.said == Some(Cont) then p.at else Since(sentAt, polls)
  {
    assert (polls + [p])[..|polls|] == polls;
  }

  /** The answer of the last of the polls of a request sent at `sentAt`: a final response or a cancellation
      if that was read; otherwise the long time-out from its time on, the short one if that much time has
      passed since the last continue, and else none yet. */
  function AnswerOfPolls(timeout: Option<nat>, maxTimeout: Option<nat>, sentAt: nat, polls: seq<Polled>): Answer
    requires polls != []
  {
    var p := polls[|polls| - 1];
    match p.said
    case Some(Fin(m)) => Answered(m)
    case Some(Canc) => RequestCancelled
    case _ =>
      if maxTimeout.Some? && sentAt + maxTimeout.value <= p.at then LongTimeout
      else if timeout.Some? && Since(sentAt, polls) + timeout.value <= p.at then ShortTimeout
      else StillWaiting
  }

  predicate IsNoAnswer(said: Option<Delivery>) {
    said.None? || said.value.Cont?
  }

  /** When it is a time-out: the long one from its time on, whatever was read but an answer; the short one
      that much after the last continue that was read, or after the call if there was none. */
  lemma TimeoutsExact(timeout: Option<nat>, maxTimeout: Option<nat>, sentAt: nat, polls: seq<Polled>)
    requires polls != []
    ensures var p, a := polls[|polls| - 1], AnswerOfPolls(timeout, maxTimeout, sentAt, polls);
      && (a == LongTimeout <==>
            IsNoAnswer(p.said) && maxTimeout.Some? && sentAt + maxTimeout.value <= p.at)
      && (a == ShortTimeout <==>
            && IsNoAnswer(p.said) && a != LongTimeout && timeout.Some?
            && if exists i :: IsLastContinue(polls, i)
               then exists i :: IsLastContinue(polls, i) && polls[i].at + timeout.value <= p.at
               else sentAt + timeout.value <= p.at)
      && (a == StillWaiting ==> IsNoAnswer(p.said))
  {
    SinceIsLast(sentAt, polls);
    hide Since, IsLastContinue;
  }

  class SendRequest {
    const net: Channels
    ghost const receiver: ResponseReceiver
    const number: cseq
    const index: nat
    const timeout: Option<nat>
    ghost const maxTimeout: Option<nat>
    ghost const sentAt: nat
    var cell: nat
    var spent: bool
    var maxDeadline: Option<nat>
    var deadline: Option<nat>
    ghost var polls: seq<Polled>

    ghost function State(): World
      reads receiver, receiver.net
    {
      receiver.State()
    }

    ghost function Status(): Status
      requires index < |net.attempts|
      reads net
    {
      net.attempts[index].status
    }

    ghost predicate Valid()
      reads this, net, receiver, receiver.net
    {
      && receiver.net == net && receiver.IsSound()
      && index < |net.attempts| && net.attempts[index].cell == cell < |net.cells|
      && number == CSeqNo(State(), net.attempts[index])
      && (spent <==> Status().Finished?)
      && TimersOk() && Said(polls) == net.attempts[index].seen
    }

    /** The long timer runs from the call, the short one from the last continue. */
    ghost predicate TimersOk()
      reads this
    {
      maxDeadline == DeadlineAfter(sentAt, maxTimeout) && deadline == DeadlineAfter(Since(sentAt, polls), timeout)
    }

    constructor (net: Channels, ghost receiver: ResponseReceiver, number: cseq, cell: nat, index: nat,
                 timeout: Option<nat>, maxTimeout: Option<nat>, now: nat)
      requires receiver.net == net && index < |net.attempts| && net.attempts[index].status == Waiting
      requires net.attempts[index].cell == cell && cell < |net.cells|
      requires number == CSeqNo(receiver.State(), net.attempts[index]) && net.attempts[index].seen == []
      ensures this.timeout == timeout && this.maxTimeout == maxTimeout && sentAt == now && polls == []
      ensures this.net == net && this.index == index && this.receiver == receiver && this.number == number
      ensures Status() == Waiting && (receiver.IsSound() ==> Valid())
    {
      this.net := net;
      this.receiver := receiver;
      this.number := number;
      this.index := index;
      this.cell := cell;
      this.timeout := timeout;
      this.maxTimeout := maxTimeout;
      sentAt := now;
      polls := [];
      spent := false;
      maxDeadline := if maxTimeout.Some? then Some(now + maxTimeout.value) else None;
      deadline := if timeout.Some? then Some(now + timeout.value) else None;
    }

    /** The first half of a cancellation: the removal is sent. */
    method SendRemoval(dropping: bool)
      requires Valid() && (Status() == Waiting || (dropping && Status() == TimedOut && net.cells[cell].value.Some?))
      modifies net
      ensures Valid() && Status() == Withdrawing(dropping) && State() == Withdraw(old(State()), index, dropping)
    {
      ghost var before := State();
      WithdrawKeeps(before, Withdraw(before, index, dropping), index);
      hide Inv;
      var _ := net.Enqueue(Remove(number));
      net.attempts := net.attempts[index := net.attempts[index].(status := Withdrawing(dropping))];
    }

    /** The second half: the cell is closed, and with a future that is dropped its receiving end goes. */
    method CloseCell(dropping: bool)
      requires Valid() && Status() == Withdrawing(dropping)
      modifies net
      ensures Valid() && Status() == (if dropping then Gone else TimedOut)
      ensures State() == Shut(old(State()), index)
    {
      ShutKeeps(State(), index);
      hide Inv;
      net.cells := net.cells[cell := net.cells[cell].(closed := true)];
      if dropping {
        net.dropped := net.dropped + {index};
      }
      net.attempts := net.attempts[index := net.attempts[index].(status := if dropping then Gone else TimedOut)];
    }

    method CancelRequest()
      requires Valid() && Status() == Waiting
      modifies net
      ensures Valid() && Status() == TimedOut
      ensures State() == Shut(Withdraw(old(State()), index, false), index)
    {
      SendRemoval(false);
      CloseCell(false);
    }

    /** Takes what the cell holds. A continue replaces the cell and restarts the short timer. */
    method PollRequest(now: nat) returns (r: Answer)
      requires Valid() && Status() == Waiting
      modifies this, net
      ensures Valid() && State() == Poll(old(State()), index, false)
      ensures polls == old(polls) + [Polled(now, Next(old(net.cells), old(cell)))]
      ensures r == AnswerOfSaid(Next(old(net.cells), old(cell))) && (r.StillWaiting? <==> Status() == Waiting)
      ensures Status() == if r.StillWaiting? then Waiting else Finished(Next(old(net.cells), old(cell)).value)
    {
      hide Valid, Pending.Poll;
      ValidInRange();
      match net.cells[cell].value
      case None =>
        Find(now);
        return StillWaiting;
      case Some(Continue(rest)) =>
        Renew(rest, now);
        return StillWaiting;
      case Some(Cancelled) =>
        Spend(Canc, now);
        return RequestCancelled;
      case Some(Final(m)) =>
        Spend(Fin(m), now);
        return Answered(m);
    }

    lemma ValidInRange()
      requires Valid()
      ensures receiver.net == net && index < |net.attempts| && cell < |net.cells| && Inv(State())
      ensures net.attempts[index].cell == cell
    {
    }

    /** There was nothing in the cell. */
    method Find(now: nat)
      requires Valid() && Status() == Waiting && net.cells[cell].value.None?
      modifies `polls
      ensures Valid() && State() == Poll(old(State()), index, false)
      ensures polls == old(polls) + [Polled(now, None)]
    {
      PollCases(State(), index);
      OnePollMore(sentAt, polls, Polled(now, None));
      hide Said, Since, Inv;
      polls := polls + [Polled(now, None)];
    }

    /** The future goes on with the cell that came with a continue, and the short timer starts again. */
    method Renew(rest: nat, now: nat)
      requires Valid() && Status() == Waiting && net.cells[cell].value == Some(Continue(rest))
      modifies `cell, `deadline, `polls, net`attempts
      ensures Valid() && Status() == Waiting && State() == Poll(old(State()), index, false)
      ensures polls == old(polls) + [Polled(now, Some(Cont))]
    {
      PollKeeps(State(), index, false);
      PollCases(State(), index);
      OnePollMore(sentAt, polls, Polled(now, Some(Cont)));
      hide Said, Since, Inv, Pending.Poll;
      polls := polls + [Polled(now, Some(Cont))];
      var t := net.attempts;
      net.attempts := t[index := t[index].(cell := rest, seen := t[index].seen + [Cont])];
      cell := rest;
      deadline := if timeout.Some? then Some(now + timeout.value) else None;
    }

    /** The future has its answer. */
    method Spend(ghost said: Delivery, now: nat)
      requires Valid() && Status() == Waiting && net.cells[cell].value.Some?
      requires said != Cont && Told(net.cells[cell].value.value) == said
      modifies `spent, `polls, net`attempts
      ensures Valid() && Status() == Finished(said) && State() == Poll(old(State()), index, false)
      ensures polls == old(polls) + [Polled(now, Some(said))]
    {
      PollKeeps(State(), index, false);
      PollCases(State(), index);
      OnePollMore(sentAt, polls, Polled(now, Some(said)));
      hide Said, Since, Inv, Pending.Poll;
      polls := polls + [Polled(now, Some(said))];
      ghost var t := net.attempts;
      net.attempts := t[index := t[index].(status := Finished(said), seen := t[index].seen + [said])];
      spent := true;
    }

    /** One poll at time `now`. */
    method PollAt(now: nat) returns (r: Answer)
      requires Valid() && Status() == Waiting
      modifies this, net
      ensures Valid()
      ensures State() ==
        Shut(Poll(old(State()), index, r.LongTimeout? || r.ShortTimeout?), index)
      ensures polls == old(polls) + [Polled(now, Next(old(net.cells), old(cell)))]
      ensures r == AnswerOfPolls(timeout, maxTimeout, sentAt, polls)
      ensures r.StillWaiting? <==> Status() == Waiting
    {
      hide Inv, Pending.Poll, Withdraw, Shut, CSeqNo, Said, Since;
      ghost var before := State();
      r := PollRequest(now);
      PollInTwo(before, State(), index);
      if r.StillWaiting? {
        if Due(maxDeadline, now) {
          CancelRequest();
          return LongTimeout;
        }
        if Due(deadline, now) {
          CancelRequest();
          return ShortTimeout;
        }
      }
    }

    /** Dropping the future drops its end of the cell, and withdraws the request unless the cell is
        spent or was closed while empty. */
    method Drop()
      requires Valid() && (Status() == Waiting || Status() == TimedOut || Status().Finished?)
      modifies net
      ensures receiver.IsSound() && index < |net.attempts| && Status() == Gone
      ensures State() == Shut(Pending.Drop(old(State()), index), index)
    {
      ghost var before := State();
      DropKeeps(before, index);
      assert CellOk(before, cell) && NumberOk(before, index);
      hide Inv, Shut;
      var cancelled := spent || (net.cells[cell].closed && net.cells[cell].value.None?);
      if cancelled {
        ShutNothing(before, index);
        net.dropped := net.dropped + {index};
        net.attempts := net.attempts[index := net.attempts[index].(status := Gone)];
      } else {
        SendRemoval(true);
        CloseCell(true);
      }
    }
  }

  lemma ShutNothing(w: World, a: nat)
    requires a < |w.attempts|
    ensures var w' := WithAttempt(w, a, w.attempts[a].(status := Gone)); Shut(w', a) == w'
  {
  }

  /** What a poll finds in the cell. */
  function Next(cells: seq<Cell>, cell: nat): Option<Delivery> {
    if cell < |cells| && cells[cell].value.Some? then Some(Told(cells[cell].value.value)) else None
  }

  function AnswerOfSaid(said: Option<Delivery>): Answer {
    match said
    case Some(Fin(m)) => Answered(m)
    case Some(Canc) => RequestCancelled
    case _ => StillWaiting
  }

  /** What a poll that does not expire does, by what is in the cell. */
  lemma PollCases(w: World, a: nat)
    requires Inv(w) && a < |w.attempts| && w.attempts[a].status == Waiting
    ensures w.attempts[a].cell < |w.cells|
    ensures var t, w' := w.attempts[a], Poll(w, a, false);
      match w.cells[t.cell].value
      case None => w' == w
      case Some(Continue(rest)) =>
        rest < |w.cells| && w' == WithAttempt(w, a, t.(cell := rest, seen := t.seen + [Cont]))
      case Some(p) => w' == WithAttempt(w, a, t.(status := Finished(Told(p)), seen := t.seen + [Told(p)]))
  {
    assert NumberOk(w, a);
    assert CellOk(w, w.attempts[a].cell);
  }

  /** A poll that finds no end is a look at the cell and then at the clock. */
  lemma PollInTwo(w: World, w': World, a: nat)
    requires a < |w.attempts| && w.attempts[a].status == Waiting && w.attempts[a].cell < |w.cells|
    requires w' == Poll(w, a, false)
    ensures w'.attempts[a].status == Waiting ==> Poll(w, a, true) == Withdraw(w', a, false)
    ensures w'.attempts[a].status != Waiting ==> Poll(w, a, true) == w'
    ensures Shut(w', a) == w'
  {
  }

  // ---------------------------------------------------------------- the handle

  /** The handle of a connection. The flag that allows requests and the sender at the other end of the
      queue are the connection's; what the connection does to them is seen here. */
  class ConnectionHandle {
    const net: Channels
    ghost const receiver: ResponseReceiver
    var allowRequests: bool
    var senderOpen: bool
    var outgoing: seq<Message>

    ghost function State(): World
      reads receiver, receiver.net
    {
      receiver.State()
    }

    ghost predicate Valid()
      reads this, net, receiver, receiver.net
    {
      receiver.net == net && receiver.IsSound() && !IsSending(State())
    }

    constructor (net: Channels, ghost receiver: ResponseReceiver)
      requires receiver.net == net && receiver.IsSound() && !IsSending(receiver.State())
      ensures Valid() && this.net == net && this.receiver == receiver && outgoing == [] && allowRequests && senderOpen
    {
      this.net := net;
      this.receiver := receiver;
      allowRequests, senderOpen, outgoing := true, true, [];
    }

    /** The connection allows no more requests. */
    method Disallow()
      modifies `allowRequests
      ensures !allowRequests
    {
      allowRequests := false;
    }

    /** The connection drops its sender. */
    method LoseSender()
      modifies `senderOpen
      ensures !senderOpen
    {
      senderOpen := false;
    }

    /** The first half of a call: the response receiver is told what to expect. */
    method Register() returns (cell: Option<nat>)
      requires Valid()
      modifies net
      ensures receiver.net == net && State() == Begin(old(State())) && net.Valid()
      ensures old(NextIsFree(State())) ==> receiver.IsSound()
      ensures cell == if old(net.alive) then Some(old(|net.cells|)) else None
    {
      ghost var before := State();
      if NextIsFree(before) {
        BeginKeeps(before);
      }
      hide Inv, NextIsFree;
      if !net.alive {
        return None;
      }
      var id := |net.cells|;
      ghost var t := Attempt(net.sent, id, Sending, None, []);
      var _ := net.Enqueue(Add(Ahead(net.start, net.sent), id));
      var next := net.NewCell(net.owners);
      net.owners := net.owners + 1;
      net.attempts := net.attempts + [t];
      return Some(next);
    }

    /** The second half: the request goes to the sender, or is withdrawn. */
    method HandOver(request: Message, cell: nat, timeout: Option<nat>, maxTimeout: Option<nat>, now: nat)
      returns (r: Option<SendRequest>)
      requires receiver.net == net && net.Valid() && IsSending(State())
      requires var t := net.attempts[|net.attempts| - 1];
        cell == t.cell && cell < |net.cells| && t.number == net.sent && t.seen == []
      modifies this, net
      ensures receiver.net == net && net.Valid() && State() == Commit(old(State()), old(senderOpen))
      ensures old(receiver.IsSound()) ==> Valid()
      ensures r.Some? <==> old(senderOpen)
      ensures r.Some? ==> fresh(r.value) && r.value.net == net && r.value.receiver == receiver
      ensures r.Some? ==> r.value.sentAt == now && r.value.timeout == timeout && r.value.maxTimeout == maxTimeout
      ensures r.Some? ==> r.value.polls == [] && r.value.number == Ahead(net.start, old(net.sent))
      ensures r.Some? ==> r.value.index == |net.attempts| - 1 && r.value.Status() == Waiting
      ensures r.Some? && old(receiver.IsSound()) ==> r.value.Valid()
      ensures outgoing == old(outgoing) +
        if r.Some? then [WithCSeq(request, Ahead(net.start, old(net.sent)))] else []
      ensures allowRequests == old(allowRequests) && senderOpen == old(senderOpen)
    {
      ghost var before := State();
      if Inv(before) {
        CommitKeeps(before, senderOpen);
      }
      hide Inv;
      if !senderOpen {
        TakeBack();
        return None;
      }
      outgoing := outgoing + [WithCSeq(request, Ahead(net.start, net.sent))];
      var number := Ahead(net.start, net.sent);
      GiveOut();
      var future := new SendRequest(net, receiver, number, cell, net.owners - 1, timeout, maxTimeout, now);
      return Some(future);
    }

    method TakeBack()
      requires receiver.net == net && net.Valid() && IsSending(State())
      requires net.attempts[|net.attempts| - 1].number == net.sent
      modifies net
      ensures net.Valid() && State() == Commit(old(State()), false)
    {
      var a := net.owners - 1;
      var _ := net.Enqueue(Remove(Ahead(net.start, net.sent)));
      net.dropped := net.dropped + {a};
      net.attempts := net.attempts[a := net.attempts[a].(status := Gone)];
    }

    method GiveOut()
      requires receiver.net == net && net.Valid() && IsSending(State())
      modifies net
      ensures net.Valid() && State() == Commit(old(State()), true)
      ensures net.owners == old(net.owners)
    {
      ghost var a := net.owners - 1;
      net.attempts := net.attempts[a := net.attempts[a].(status := Waiting)];
      net.sent := net.sent + 1;
    }

    /** A whole call. Its effect is stated for every call; that it leaves the system sound is so if the
        next number is free. */
    method SendRequestWithOptions(request: Message, timeout: Option<nat>, maxTimeout: Option<nat>, now: nat)
      returns (r: Option<SendRequest>)
      requires Valid()
      modifies this, net
      ensures State() == if old(allowRequests) then Commit(Begin(old(State())), old(senderOpen)) else old(State())
      ensures r.Some? <==> old(allowRequests && net.alive && senderOpen)
      ensures outgoing == old(outgoing) +
        if r.Some? then [WithCSeq(request, Ahead(net.start, old(net.sent)))] else []
      ensures old(NextIsFree(State())) ==> Valid()
      ensures r.Some? && old(NextIsFree(State())) ==> r.value.Valid() && r.value.Status() == Waiting
      ensures r.Some? ==> fresh(r.value) && r.value.net == net && r.value.receiver == receiver
      ensures r.Some? ==> r.value.number == Ahead(net.start, old(net.sent)) && r.value.index == |net.attempts| - 1
      ensures r.Some? ==> r.value.sentAt == now && r.value.timeout == timeout && r.value.maxTimeout == maxTimeout
      ensures r.Some? ==> r.value.polls == []
    {
      if !allowRequests {
        return None;
      }
      var cell := Register();
      hide Inv, NextIsFree;
      if cell.None? {
        return None;
      }
      r := HandOver(request, cell.value, timeout, maxTimeout, now);
    }
  }
}
