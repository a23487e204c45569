/** A request from the call that sends it to the answer of its future, with responses coming in and polls at
    given times. */
module Awaiting {
  import opened Bytes
  import opened Decoding
  import opened CSeqs
  import opened TypedHeaders
  import opened Pending
  import opened PendingInvariants
  import opened Matchers

  /** What the peer sent since the last poll, and the time of this one. */
  datatype Visit = Visit(responses: seq<Message>, at: nat)

  function Arrived(visits: seq<Visit>): seq<Message> {
    if visits == [] then [] else Arrived(visits[..|visits| - 1]) + visits[|visits| - 1].responses
  }

  predicate AreResponses(visits: seq<Visit>) {
    forall i, j :: 0 <= i < |visits| && 0 <= j < |visits[i].responses| ==> visits[i].responses[j].Response?
  }

  /** Each poll reads the next of the responses with the number of the request, if one has come by then. */
  function History(c: cseq, visits: seq<Visit>): seq<Polled> {
    if visits == [] then []
    else
      var before := History(c, visits[..|visits| - 1]);
      before + [Polled(visits[|visits| - 1].at, NthOf(Matching(Arrived(visits), c), |Said(before)|))]
  }

  function NthOf(ds: seq<Delivery>, n: nat): Option<Delivery> {
    if n < |ds| then Some(ds[n]) else None
  }

  lemma OneVisitMore(c: cseq, visits: seq<Visit>, v: Visit)
    ensures Arrived(visits + [v]) == Arrived(visits) + v.responses
    ensures History(c, visits + [v]) == History(c, visits) +
      [Polled(v.at, NthOf(Matching(Arrived(visits + [v]), c), |Said(History(c, visits))|))]
  {
    assert (visits + [v])[..|visits|] == visits;
  }

  // ---------------------------------------------------------------- the steps in between

  lemma {:induction false} DrainRegisters(w: World, a: nat)
    requires a < |w.attempts|
    ensures var w' := Drain(w);
      && a < |w'.attempts| && w'.attempts[a] == w.attempts[a].(since := w'.attempts[a].since)
      && w'.arrived == w.arrived && w'.start == w.start && w'.sent == w.sent && w'.cells == w.cells
      && (w'.attempts[a].since == w.attempts[a].since || w'.attempts[a].since == Some(|w.arrived|))
    decreases |w.updates|
  {
    if w.alive && w.updates != [] {
      DrainRegisters(Apply(w), a);
    }
  }

  lemma EmptyQueueRegisters(w: World, a: nat)
    requires Inv(w) && w.updates == [] && a < |w.attempts| && w.attempts[a].status == Waiting
    ensures w.attempts[a].since.Some?
  {
    assert AttemptOk(w, a);
  }

  lemma {:induction false} HeardArrives(w: World, ms: seq<Message>)
    requires w.alive && forall i :: 0 <= i < |ms| ==> ms[i].Response?
    ensures var w' := Heard(w, ms);
      && w'.arrived == w.arrived + ms && w'.attempts == w.attempts && w'.alive && w'.start == w.start
      && w'.sent == w.sent && |w'.cells| >= |w.cells|
    decreases |ms|
  {
    hide CSeqOf;
    if ms != [] {
      HeardArrives(w, ms[..|ms| - 1]);
      assert w.arrived + ms[..|ms| - 1] + [ms[|ms| - 1]] == w.arrived + ms;
    }
  }

  /** The cell of a future holds the first of the responses that were not read yet. */
  lemma NextIsNext(w: World, a: nat)
    requires Inv(w) && w.alive && a < |w.attempts| && w.attempts[a].status == Waiting && w.attempts[a].since.Some?
    ensures var t := w.attempts[a];
      && t.since.value <= |w.arrived|
      && Next(w.cells, t.cell) == NthOf(Matching(w.arrived[t.since.value..], CSeqNo(w, t)), |t.seen|)
  {
    assert AttemptOk(w, a);
    var t := w.attempts[a];
    hide Matching, Inv;
    var all := Matching(w.arrived[t.since.value..], CSeqNo(w, t));
    assert all == t.seen + Follow(w.cells, t.cell);
    FollowStarts(w.cells, t.cell);
  }

  lemma FollowStarts(cells: seq<Cell>, id: nat)
    requires id < |cells|
    ensures Follow(cells, id) == [] <==> cells[id].value.None?
    ensures cells[id].value.Some? ==> Follow(cells, id)[0] == Told(cells[id].value.value)
  {
  }

  lemma StaysWaiting(w: World, a: nat)
    requires a < |w.attempts| && w.attempts[a].status == Waiting
    requires Shut(Poll(w, a, false), a).attempts[a].status == Waiting
    ensures var w' := Shut(Poll(w, a, false), a);
      && w'.arrived == w.arrived && w'.alive == w.alive && w'.start == w.start && |w'.attempts| == |w.attempts|
      && w'.attempts[a].since == w.attempts[a].since && w'.attempts[a].number == w.attempts[a].number
  {
  }

  /** The peer's responses are matched. */
  method Deliver(receiver: ResponseReceiver, ms: seq<Message>)
    requires receiver.Valid() && receiver.net.alive && forall i :: 0 <= i < |ms| ==> ms[i].Response?
    modifies receiver, receiver.net
    ensures receiver.Valid() && receiver.net.alive && receiver.State() == Heard(old(receiver.State()), ms)
    ensures old(receiver.IsSound()) ==> receiver.IsSound()
  {
    hide Respond, Inv, InRange;
    for i := 0 to |ms|
      invariant receiver.Valid() && receiver.net.alive
      invariant receiver.State() == Heard(old(receiver.State()), ms[..i])
      invariant old(receiver.IsSound()) ==> receiver.IsSound()
    {
      assert ms[..i + 1][..i] == ms[..i];
      receiver.HandleResponse(ms[i]);
    }
    assert ms[..|ms|] == ms;
  }

  lemma SoundIsValid(w: World)
    requires Inv(w)
    ensures InRange(w)
  {
    forall id: nat | id < |w.cells| ensures w.cells[id].owner < |w.attempts| {
      assert CellOk(w, id);
    }
    forall c: cseq | c in w.pending ensures w.pending[c] < |w.cells| {
      assert EntryOk(w, c);
    }
    forall i: nat | i < |w.updates| && w.updates[i].Add? ensures w.updates[i].cell < |w.cells| {
      assert AddOk(w, w.updates[i]);
    }
  }

  /** The future between two polls: it was registered after `n` responses had arrived. */
  ghost predicate IsAwaiting(future: SendRequest, receiver: ResponseReceiver, n: nat)
    reads future, future.net, receiver, receiver.net, future.receiver, future.receiver.net
  {
    && future.receiver == receiver && future.net == receiver.net && future.Valid() && receiver.Valid()
    && receiver.net.alive && future.Status() == Waiting
    && receiver.net.attempts[future.index].since == Some(n) && n <= |receiver.net.arrived|
  }

  lemma SentIsLast(w: World)
    requires w.alive && !IsSending(w)
    ensures var w' := Commit(Begin(w), true);
      w'.alive && w'.attempts != [] && w'.attempts[|w'.attempts| - 1].since.None?
  {
  }

  /** The request is sent, and the response receiver learns of it. */
  method Send(handle: ConnectionHandle, receiver: ResponseReceiver, request: Message, timeout: Option<nat>,
              maxTimeout: Option<nat>, now: nat) returns (future: SendRequest)
    requires handle.Valid() && handle.receiver == receiver && NextIsFree(receiver.State())
    requires handle.allowRequests && handle.senderOpen && handle.net.alive
    modifies handle, handle.net, receiver
    ensures fresh(future) && IsAwaiting(future, receiver, |receiver.net.arrived|)
    ensures future.number == Ahead(handle.net.start, old(handle.net.sent))
    ensures future.sentAt == now && future.timeout == timeout && future.maxTimeout == maxTimeout && future.polls == []
  {
    hide Inv, NextIsFree;
    SentIsLast(receiver.State());
    var sent := handle.SendRequestWithOptions(request, timeout, maxTimeout, now);
    future := sent.value;
    ghost var before := receiver.State();
    SoundIsValid(before);
    hide Begin, Commit;
    DrainRegisters(before, future.index);
    DrainEmpties(before);
    hide Drain;
    receiver.PollUpdates();
    EmptyQueueRegisters(receiver.State(), future.index);
  }

  /** Responses come in, and the future is polled: it reads the next response that bears its number. */
  method Attend(future: SendRequest, receiver: ResponseReceiver, v: Visit, ghost n: nat) returns (r: Answer)
    requires IsAwaiting(future, receiver, n) && forall i :: 0 <= i < |v.responses| ==> v.responses[i].Response?
    modifies future, receiver, receiver.net
    ensures future.polls == old(future.polls) +
      [Polled(v.at, NthOf(Matching(old(receiver.net.arrived)[n..] + v.responses, future.number),
                          |Said(old(future.polls))|))]
    ensures r == AnswerOfPolls(future.timeout, future.maxTimeout, future.sentAt, future.polls)
    ensures r.StillWaiting? ==>
      IsAwaiting(future, receiver, n) && receiver.net.arrived[n..] == old(receiver.net.arrived)[n..] + v.responses
  {
    ghost var before := receiver.State();
    HeardArrives(before, v.responses);
    hide Heard, Inv, InRange, Matching, Said, Since, AnswerOfPolls, Pending.Poll, Shut;
    Deliver(receiver, v.responses);
    ghost var heard := receiver.State();
    NextIsNext(heard, future.index);
    assert (before.arrived + v.responses)[n..] == before.arrived[n..] + v.responses;
    r := future.PollAt(v.at);
    if r.StillWaiting? {
      StaysWaiting(heard, future.index);
      SoundIsValid(receiver.State());
    }
  }

  function AnswerAfter(timeout: Option<nat>, maxTimeout: Option<nat>, sentAt: nat, c: cseq, visits: seq<Visit>): Answer
    requires visits != []
  {
    AnswerOfPolls(timeout, maxTimeout, sentAt, History(c, visits))
  }

  /** What was read and what has arrived are those of the visits so far. */
  ghost predicate IsInStep(future: SendRequest, receiver: ResponseReceiver, n: nat, visits: seq<Visit>)
    reads future, future.net, receiver, receiver.net, future.receiver, future.receiver.net
  {
    && IsAwaiting(future, receiver, n)
    && receiver.net.arrived[n..] == Arrived(visits) && future.polls == History(future.number, visits)
  }

  method AttendNext(future: SendRequest, receiver: ResponseReceiver, ghost visits: seq<Visit>, v: Visit, ghost n: nat)
    returns (r: Answer)
    requires IsInStep(future, receiver, n, visits) && forall i :: 0 <= i < |v.responses| ==> v.responses[i].Response?
    modifies future, receiver, receiver.net
    ensures r == AnswerAfter(future.timeout, future.maxTimeout, future.sentAt, future.number, visits + [v])
    ensures r.StillWaiting? ==> IsInStep(future, receiver, n, visits + [v])
  {
    hide Matching, AnswerOfPolls, Said, Inv, InRange;
    hide IsAwaiting;
    OneVisitMore(future.number, visits, v);
    r := Attend(future, receiver, v, n);
  }

  /** A request sent at `sentAt`, with responses of any kind coming in and the future polled at any times. Up to
      the first that is not `StillWaiting`, each answer is that of the polls so far: what was read of the
      responses with the number of the request, and the two time-outs of the call. */
  method Await(handle: ConnectionHandle, receiver: ResponseReceiver, request: Message, timeout: Option<nat>,
               maxTimeout: Option<nat>, sentAt: nat, visits: seq<Visit>) returns (answers: seq<Answer>)
    requires handle.Valid() && handle.receiver == receiver && NextIsFree(receiver.State())
    requires handle.allowRequests && handle.senderOpen && handle.net.alive && AreResponses(visits)
    modifies handle, handle.net, receiver
    ensures |answers| <= |visits|
    ensures forall i :: 0 <= i < |answers| - 1 ==> answers[i] == StillWaiting
    ensures |answers| < |visits| ==> answers != [] && answers[|answers| - 1] != StillWaiting
    ensures forall i :: 0 <= i < |answers| ==>
      answers[i] ==
        AnswerAfter(timeout, maxTimeout, sentAt, Ahead(handle.net.start, old(handle.net.sent)), visits[..i + 1])
  {
    hide Inv, InRange, NextIsFree, AnswerAfter, IsAwaiting, Matching;
    ghost var c := Ahead(handle.net.start, handle.net.sent);
    var future := Send(handle, receiver, request, timeout, maxTimeout, sentAt);
    ghost var n := |receiver.net.arrived|;
    answers := [];
    assert visits[..0] == [];
    assert IsInStep(future, receiver, n, visits[..0]);
    hide IsInStep;
    for i := 0 to |visits|
      invariant |answers| == i && forall j :: 0 <= j < i ==> answers[j] == StillWaiting
      invariant IsInStep(future, receiver, n, visits[..i]) && future.number == c && fresh(future)
      invariant future.timeout == timeout && future.maxTimeout == maxTimeout && future.sentAt == sentAt
      invariant forall j :: 0 <= j < i ==> answers[j] == AnswerAfter(timeout, maxTimeout, sentAt, c, visits[..j + 1])
    {
      assert visits[..i + 1] == visits[..i] + [visits[i]];
      var answer := AttendNext(future, receiver, visits[..i], visits[i], n);
      answers := answers + [answer];
      if answer != StillWaiting {
        return;
      }
    }
  }
}
