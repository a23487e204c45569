/** The request handler: one request at a time, continues while it is served, then one answer. */
module Handlers {
  import opened Bytes
  import opened Decoding
  import opened CSeqs
  import opened TypedHeaders
  import opened Statuses
  import Reordering
  import Wires

  /** What the handler consults: the scheme of a URI, and the phrase of a status. */
  datatype Tables = Tables(isRtspu: bytes -> bool, phrase: nat -> bytes)

  /** How a request was settled: turned away, answered by the service, or failed by it. */
  datatype Outcome = TurnedAway | Served(response: Message) | ServiceFailed

  datatype Entry = Entry(c: cseq, timer: bool, message: Message)

  /** The status with which a request is turned away without reaching the service. */
  function Verdict(tables: Tables, request: Message): Option<nat> {
    if request.Request? && tables.isRtspu(request.uri) then Some(NOT_IMPLEMENTED)
    else
      var length := DeclaredLength(request.headers);
      if length.Some? && length.value > 0 && Values(request.headers, CONTENT_TYPE) == [] then Some(BAD_REQUEST)
      else None
  }

  // ---------------------------------------------------------------- what is turned away

  /** The URI has the scheme that is not implemented. */
  predicate IsUnimplemented(tables: Tables, request: Message) {
    request.Request? && tables.isRtspu(request.uri)
  }

  /** There is exactly one content length, valid and positive, and no content type. */
  ghost predicate LacksType(request: Message) {
    && Wires.HasNo(request.headers, CONTENT_TYPE)
    && exists i: nat, n: nat :: HasLength(request, i, n) && n > 0
  }

  predicate HasLength(request: Message, i: nat, n: nat) {
    Wires.IsOnly(request.headers, CONTENT_LENGTH, i) && Wires.IsLengthText(request.headers[i].value, n)
  }

  lemma VerdictExact(tables: Tables, request: Message)
    ensures Verdict(tables, request) ==
      if IsUnimplemented(tables, request) then Some(501) else if LacksType(request) then Some(400) else None
  {
    hide DeclaredLength, Wires.HasNo, Wires.IsLengthText, Values;
    Wires.NoValues(request.headers, CONTENT_TYPE);
    forall n: nat ensures Wires.Declares(request.headers, n) <==> DeclaredLength(request.headers) == Some(n) {
      Wires.DeclaresExact(request.headers, n);
    }
    if i: nat, n: nat :| HasLength(request, i, n) && n > 0 {
      assert Wires.Declares(request.headers, n);
    }
    var length := DeclaredLength(request.headers);
    if length.Some? && length.value > 0 {
      assert Wires.Declares(request.headers, length.value);
      var i: nat :| Wires.IsOnly(request.headers, CONTENT_LENGTH, i) &&
        Wires.IsLengthText(request.headers[i].value, length.value);
      assert HasLength(request, i, length.value);
    }
  }

  function Answer(tables: Tables, request: Message, outcome: Outcome): Message {
    match outcome
    case TurnedAway =>
      var verdict := Verdict(tables, request);
      Plain(tables.phrase, if verdict.Some? then verdict.value else BAD_REQUEST)
    case Served(response) => response
    case ServiceFailed => Plain(tables.phrase, INTERNAL_SERVER_ERROR)
  }

  predicate OnlyTimers(tables: Tables, c: cseq, segment: seq<Entry>) {
    forall i :: 0 <= i < |segment| ==>
      segment[i] == Entry(c, true, WithCSeq(Plain(tables.phrase, CONTINUE), c))
  }

  /** The answer to one request: continues, then the final response, all under its number. A request
      that is turned away gets no continues, and just those requests the service never sees. */
  predicate Settles(tables: Tables, item: (cseq, Message), outcome: Outcome, segment: seq<Entry>) {
    && segment != []
    && OnlyTimers(tables, item.0, segment[..|segment| - 1])
    && segment[|segment| - 1] == Entry(item.0, false, WithCSeq(Answer(tables, item.1, outcome), item.0))
    && (outcome == TurnedAway <==> Verdict(tables, item.1).Some?)
    && (outcome == TurnedAway ==> |segment| == 1)
  }

  /** One segment for each dequeued request, in order: complete for those that are settled, continues
      only for the one being served. */
  predicate Tally(tables: Tables, dequeued: seq<(cseq, Message)>, outcomes: seq<Outcome>, segments: seq<seq<Entry>>) {
    && |segments| == |dequeued|
    && |outcomes| <= |dequeued| <= |outcomes| + 1
    && (forall i :: 0 <= i < |outcomes| ==> Settles(tables, dequeued[i], outcomes[i], segments[i]))
    && (|outcomes| < |dequeued| ==>
          OnlyTimers(tables, dequeued[|outcomes|].0, segments[|outcomes|])
          && Verdict(tables, dequeued[|outcomes|].1).None?)
  }

  lemma TallySizes(tables: Tables, dequeued: seq<(cseq, Message)>, outcomes: seq<Outcome>, segments: seq<seq<Entry>>)
    requires Tally(tables, dequeued, outcomes, segments)
    ensures |segments| == |dequeued| && |outcomes| <= |dequeued| <= |outcomes| + 1
  {
  }

  lemma TimerCounts(tables: Tables, dequeued: seq<(cseq, Message)>, outcomes: seq<Outcome>, segments: seq<seq<Entry>>,
                    segments': seq<seq<Entry>>)
    requires Tally(tables, dequeued, outcomes, segments) && |outcomes| < |dequeued|
    requires var n, c := |outcomes|, dequeued[|outcomes|].0;
      segments' == segments[n := segments[n] + [Entry(c, true, WithCSeq(Plain(tables.phrase, CONTINUE), c))]]
    ensures Tally(tables, dequeued, outcomes, segments')
  {
    hide Settles, Verdict, WithCSeq;
  }

  lemma FinalCounts(tables: Tables, dequeued: seq<(cseq, Message)>, outcomes: seq<Outcome>, segments: seq<seq<Entry>>,
                    segments': seq<seq<Entry>>, outcome: Outcome)
    requires Tally(tables, dequeued, outcomes, segments) && |outcomes| < |dequeued| && outcome != TurnedAway
    requires var n, item := |outcomes|, dequeued[|outcomes|];
      segments' == segments[n := segments[n]
        + [Entry(item.0, false, WithCSeq(Answer(tables, item.1, outcome), item.0))]]
    ensures Tally(tables, dequeued, outcomes + [outcome], segments')
  {
    hide Verdict, WithCSeq, Answer, OnlyTimers;
    var n := |outcomes|;
    assert segments'[n][..|segments'[n]| - 1] == segments[n];
    assert Settles(tables, dequeued[n], outcome, segments'[n]);
  }

  lemma TurnAwayCounts(tables: Tables, dequeued: seq<(cseq, Message)>, outcomes: seq<Outcome>,
                       segments: seq<seq<Entry>>, item: (cseq, Message), e: Entry)
    requires Tally(tables, dequeued, outcomes, segments) && |outcomes| == |dequeued|
    requires Verdict(tables, item.1).Some?
    requires e == Entry(item.0, false, WithCSeq(Plain(tables.phrase, Verdict(tables, item.1).value), item.0))
    ensures Tally(tables, dequeued + [item], outcomes + [TurnedAway], segments + [[e]])
  {
    hide Verdict, WithCSeq;
    assert Settles(tables, item, TurnedAway, [e]);
  }

  lemma OpenCounts(tables: Tables, dequeued: seq<(cseq, Message)>, outcomes: seq<Outcome>,
                   segments: seq<seq<Entry>>, item: (cseq, Message))
    requires Tally(tables, dequeued, outcomes, segments) && |outcomes| == |dequeued|
    requires Verdict(tables, item.1).None?
    ensures Tally(tables, dequeued + [item], outcomes, segments + [[]])
  {
    hide Verdict, Settles;
  }

  // ---------------------------------------------------------------- the handler as a machine

  /** The queue, and what the tally is about. */
  datatype Desk = Desk(
    incoming: seq<(cseq, Message)>,
    dequeued: seq<(cseq, Message)>,
    outcomes: seq<Outcome>,
    segments: seq<seq<Entry>>)

  datatype Chore = TakeNext | SendTimer | Settle(outcome: Outcome)

  predicate IsBusy(d: Desk) {
    |d.outcomes| < |d.dequeued| && d.segments != []
  }

  function Extend(segments: seq<seq<Entry>>, e: Entry): seq<seq<Entry>>
    requires segments != []
  {
    segments[|segments| - 1 := segments[|segments| - 1] + [e]]
  }

  /** A chore is done if there is occasion for it: a request is taken when none is in service. */
  function DoChore(tables: Tables, d: Desk, chore: Chore): Desk {
    match chore
    case TakeNext =>
      if |d.outcomes| < |d.dequeued| || d.incoming == [] then d
      else
        var item := d.incoming[0];
        var verdict := Verdict(tables, item.1);
        var taken := d.(incoming := d.incoming[1..], dequeued := d.dequeued + [item]);
        if verdict.None? then taken.(segments := d.segments + [[]])
        else
          var e := Entry(item.0, false, WithCSeq(Plain(tables.phrase, verdict.value), item.0));
          taken.(segments := d.segments + [[e]], outcomes := d.outcomes + [TurnedAway])
    case SendTimer =>
      if !IsBusy(d) then d
      else
        var c := d.dequeued[|d.outcomes|].0;
        d.(segments := Extend(d.segments, Entry(c, true, WithCSeq(Plain(tables.phrase, CONTINUE), c))))
    case Settle(outcome) =>
      if !IsBusy(d) || outcome == TurnedAway then d
      else
        var item := d.dequeued[|d.outcomes|];
        d.(segments := Extend(d.segments, Entry(item.0, false, WithCSeq(Answer(tables, item.1, outcome), item.0))),
           outcomes := d.outcomes + [outcome])
  }

  function DoChores(tables: Tables, d: Desk, chores: seq<Chore>): Desk
    decreases |chores|
  {
    if chores == [] then d else DoChores(tables, DoChore(tables, d, chores[0]), chores[1..])
  }

  lemma {:induction false} ChoresAppend(tables: Tables, d: Desk, a: seq<Chore>, b: seq<Chore>)
    ensures DoChores(tables, d, a + b) == DoChores(tables, DoChores(tables, d, a), b)
    decreases |a|
  {
    hide DoChore;
    if a == [] {
      assert a + b == b;
    } else {
      assert (a + b)[1..] == a[1..] + b;
      ChoresAppend(tables, DoChore(tables, d, a[0]), a[1..], b);
    }
  }

  lemma OneMore(tables: Tables, d: Desk, chores: seq<Chore>, chore: Chore)
    ensures DoChores(tables, d, chores + [chore]) == DoChore(tables, DoChores(tables, d, chores), chore)
  {
    ChoresAppend(tables, d, chores, [chore]);
    hide DoChore;
    assert [chore][1..] == [];
    var d' := DoChores(tables, d, chores);
    assert DoChores(tables, d', [chore]) == DoChores(tables, DoChore(tables, d', chore), []);
  }

  /** Chores keep the tally, and take requests from the queue in order. */
  lemma ChoreKeeps(tables: Tables, d: Desk, chore: Chore)
    requires Tally(tables, d.dequeued, d.outcomes, d.segments)
    ensures var d' := DoChore(tables, d, chore);
      && Tally(tables, d'.dequeued, d'.outcomes, d'.segments)
      && d'.dequeued + d'.incoming == d.dequeued + d.incoming
  {
    TallySizes(tables, d.dequeued, d.outcomes, d.segments);
    hide Tally, WithCSeq, Verdict, Answer;
    var d' := DoChore(tables, d, chore);
    match chore
    case TakeNext =>
      if |d.outcomes| == |d.dequeued| && d.incoming != [] {
        var item := d.incoming[0];
        assert d.dequeued + d.incoming == d.dequeued + [item] + d.incoming[1..];
        if Verdict(tables, item.1).None? {
          OpenCounts(tables, d.dequeued, d.outcomes, d.segments, item);
        } else {
          TurnAwayCounts(tables, d.dequeued, d.outcomes, d.segments, item, d'.segments[|d.segments|][0]);
        }
      }
    case SendTimer =>
      if IsBusy(d) {
        TimerCounts(tables, d.dequeued, d.outcomes, d.segments, d'.segments);
      }
    case Settle(outcome) =>
      if IsBusy(d) && outcome != TurnedAway {
        FinalCounts(tables, d.dequeued, d.outcomes, d.segments, d'.segments, outcome);
      }
  }

  function Flatten(segments: seq<seq<Entry>>): seq<Entry> {
    if segments == [] then [] else Flatten(segments[..|segments| - 1]) + segments[|segments| - 1]
  }

  function Written(log: seq<Entry>): seq<Message> {
    seq(|log|, i requires 0 <= i < |log| => log[i].message)
  }

  lemma FlattenGrows(segments: seq<seq<Entry>>, e: Entry)
    requires segments != []
    ensures var last := |segments| - 1;
      Flatten(segments[last := segments[last] + [e]]) == Flatten(segments) + [e]
  {
    var last := |segments| - 1;
    var grown := segments[last := segments[last] + [e]];
    assert grown[..last] == segments[..last];
    var before := Flatten(segments[..last]);
    assert before + (segments[last] + [e]) == before + segments[last] + [e];
  }

  lemma FlattenOpens(segments: seq<seq<Entry>>)
    ensures Flatten(segments + [[]]) == Flatten(segments)
  {
    assert (segments + [[]])[..|segments|] == segments;
  }

  predicate OnlySendTimer(chores: seq<Chore>) {
    forall i :: 0 <= i < |chores| ==> chores[i] == SendTimer
  }

  datatype Poll = Ready | NotReady

  /** What a poll of the service's future gives. */
  datatype ServicePoll = Answered(response: Message) | StillServing | Errored

  datatype TimerPoll = Fired | NotYet | AtCapacity

  // ---------------------------------------------------------------- the timer within one call

  /** A look at the clock, and the one with which the timer is set again. */
  datatype Look = Look(seen: nat, again: nat)

  /** All looks up to `until` find the timer fired. */
  predicate AllFire(deadline: nat, wait: nat, until: nat, looks: seq<Look>)
    decreases |looks|
  {
    looks != [] ==>
      && deadline <= looks[0].seen <= looks[0].again <= until
      && (|looks| > 1 ==> looks[0].again <= looks[1].seen)
      && AllFire(looks[0].again + wait, wait, until, looks[1..])
  }

  ghost predicate AtMost(deadline: nat, wait: nat, until: nat, n: nat) {
    forall looks :: AllFire(deadline, wait, until, looks) ==> |looks| <= n
  }

  lemma {:induction false} FiresApart(deadline: nat, wait: nat, until: nat, looks: seq<Look>)
    requires AllFire(deadline, wait, until, looks) && looks != []
    ensures deadline + (|looks| - 1) * wait <= until
    decreases |looks|
  {
    if |looks| > 1 {
      FiresApart(looks[0].again + wait, wait, until, looks[1..]);
      OneWaitMore(|looks| - 2, wait);
    }
  }

  lemma OneWaitMore(n: int, wait: nat)
    ensures (n + 1) * wait == n * wait + wait
  {
  }

  /** A timer set for `t0` that has fired `n` times by `until`, each at least a wait after the one before, and is
      set for `t` now, or given up. */
  predicate IsTimed(t0: Option<nat>, t: Option<nat>, wait: Option<nat>, n: nat, until: nat) {
    && (t.Some? ==> t0.Some? && wait.Some? && t0.value + n * wait.value <= t.value && (n == 0 ==> t == t0))
    && (n > 0 ==> t0.Some? && wait.Some? && t0.value + (n - 1) * wait.value <= until)
  }

  lemma NotFiredYet(t: Option<nat>, wait: Option<nat>, until: nat)
    requires t.Some? ==> wait.Some?
    ensures IsTimed(t, t, wait, 0, until)
  {
  }

  lemma FiresOnceMore(t0: Option<nat>, t: Option<nat>, wait: nat, n: nat, until: nat, fired: nat, now: nat)
    requires IsTimed(t0, t, Some(wait), n, until) && t.Some? && t.value <= fired <= now && fired <= until
    ensures IsTimed(t0, Some(now + wait), Some(wait), n + 1, until)
  {
    OneWaitMore(n, wait);
  }

  lemma GivenUp(t0: Option<nat>, t: Option<nat>, wait: Option<nat>, n: nat, until: nat)
    requires IsTimed(t0, t, wait, n, until)
    ensures IsTimed(t0, None, wait, n, until)
  {
  }

  lemma {:induction false} NoWait(until: nat, n: nat) returns (looks: seq<Look>)
    ensures |looks| == n && AllFire(until, 0, until, looks)
    ensures forall i :: 0 <= i < n ==> looks[i] == Look(until, until)
  {
    looks := [];
    if n > 0 {
      var later := NoWait(until, n - 1);
      looks := [Look(until, until)] + later;
      assert looks[1..] == later;
    }
  }

  /** A timer that is due fires only so often within a call if and only if there is a wait. */
  lemma StopsIfPositive(deadline: nat, wait: nat, until: nat)
    requires deadline <= until
    ensures wait > 0 <==> exists n: nat :: AtMost(deadline, wait, until, n)
  {
    if wait > 0 {
      var n := until - deadline + 1;
      forall looks | AllFire(deadline, wait, until, looks) ensures |looks| <= n {
        if looks != [] {
          FiresApart(deadline, wait, until, looks);
          AtLeastOneEach(|looks| - 1, wait);
        }
      }
      assert AtMost(deadline, wait, until, n);
    } else {
      forall n: nat ensures !AtMost(deadline, wait, until, n) {
        var looks := NoWait(until, n + 1);
        assert AllFire(deadline, 0, until, looks);
      }
    }
  }

  lemma AtLeastOneEach(n: nat, wait: nat)
    requires wait > 0
    ensures n <= n * wait
  {
  }

  /** The handle through which messages are sent; whether the sender at the other end is there is not up to the
      handler, and does not change within one of its calls. */
  class SenderHandle {
    var alive: bool
    var outgoing: seq<Message>

    constructor ()
      ensures alive && outgoing == []
    {
      alive, outgoing := true, [];
    }

    method TrySendMessage(m: Message) returns (ok: bool)
      modifies `outgoing
      ensures ok == alive && outgoing == old(outgoing) + if alive then [m] else []
    {
      if alive {
        outgoing := outgoing + [m];
      }
      return alive;
    }
  }

  /** The service. What its future for a request says is up to the service, between the calls of the handler. */
  class Service {
    var replies: cseq -> ServicePoll

    constructor (replies: cseq -> ServicePoll)
      ensures this.replies == replies
    {
      this.replies := replies;
    }
  }

  class RequestHandler {
    const tables: Tables
    const service: Service
    const handle: SenderHandle
    const wait: Option<nat>
    var timer: Option<nat>
    var incoming: seq<(cseq, Message)>
    var ended: bool
    var sender: bool
    var serviced: Option<cseq>
    var shutdownEvent: bool
    ghost var events: nat
    ghost var dequeued: seq<(cseq, Message)>
    ghost var outcomes: seq<Outcome>
    ghost var segments: seq<seq<Entry>>
    ghost var log: seq<Entry>

    /** The log is the segments in order, and what reached the sender is a prefix of it. */
    ghost predicate Valid()
      reads this, handle
    {
      && Tally(tables, dequeued, outcomes, segments)
      && log == Flatten(segments)
      && (serviced.Some? ==> |outcomes| < |dequeued| && serviced == Some(dequeued[|outcomes|].0))
      && (serviced.None? ==> timer.None? && (shutdownEvent ==> |outcomes| == |dequeued|))
      && (timer.Some? ==> wait.Some?)
      && handle.outgoing <= Written(log)
      && (sender ==> handle.outgoing == Written(log))
      && events == (if shutdownEvent then 0 else 1)
      && (!shutdownEvent ==> serviced.None? && !sender)
    }

    /** The sender is given up just when there was something to say and it was not there. */
    ghost predicate GivesUp(before: bool, said: seq<Entry>)
      reads this, handle
    {
      sender <==> before && (handle.alive || log == said)
    }

    /** What `GivesUp` says of a stretch and then of the next. */
    lemma GivesUpOn(before: bool, said: seq<Entry>, again: bool, later: seq<Entry>)
      requires again <==> before && (handle.alive || later == said)
      requires GivesUp(again, later) && said <= later <= log
      ensures GivesUp(before, said)
    {
    }

    lemma GivesUpIs(before: bool, said: seq<Entry>)
      ensures GivesUp(before, said) <==> (sender <==> before && (handle.alive || log == said))
    {
    }

    lemma SenderHears(before: bool, said: seq<Entry>)
      requires Valid() && GivesUp(before, said)
      ensures before && handle.alive ==> handle.outgoing == Written(log)
    {
    }

    ghost function Abstract(): Desk
      reads this
    {
      Desk(incoming, dequeued, outcomes, segments)
    }

    /** Untouched by anything but taking a request. */
    ghost predicate SameIntake(before: seq<(cseq, Message)>, queue: seq<(cseq, Message)>)
      reads this
    {
      dequeued == before && incoming == queue
    }

    constructor (tables: Tables, service: Service, handle: SenderHandle, wait: Option<nat>)
      requires handle.outgoing == []
      ensures Valid() && dequeued == [] && incoming == [] && log == [] && !ended && sender && shutdownEvent
      ensures this.tables == tables && this.service == service && this.handle == handle && this.wait == wait
    {
      this.tables := tables;
      this.service := service;
      this.handle := handle;
      this.wait := wait;
      timer, incoming, ended, sender, serviced, shutdownEvent := None, [], false, true, None, true;
      events, dequeued, outcomes, segments, log := 0, [], [], [], [];
    }

    /** The number is put on the response; if the sender turns out to be gone, it is not tried again. */
    method SendResponse(c: cseq, response: Message, isTimer: bool)
      requires |segments| > 0 && log == Flatten(segments)
      requires handle.outgoing <= Written(log) && (sender ==> handle.outgoing == Written(log))
      modifies `segments, `log, `sender, handle`outgoing
      ensures segments == old(segments)[|old(segments)| - 1 :=
                old(segments)[|old(segments)| - 1] + [Entry(c, isTimer, WithCSeq(response, c))]]
      ensures log == Flatten(segments) && log == old(log) + [Entry(c, isTimer, WithCSeq(response, c))]
      ensures handle.outgoing <= Written(log) && (sender ==> handle.outgoing == Written(log))
      ensures GivesUp(old(sender), old(log)) && handle.outgoing == old(handle.outgoing) +
        if old(sender) && handle.alive then [WithCSeq(response, c)] else []
    {
      var message := WithCSeq(response, c);
      ghost var e := Entry(c, isTimer, message);
      FlattenGrows(segments, e);
      assert Written(log + [e]) == Written(log) + [message];
      ghost var last := |segments| - 1;
      segments := segments[last := segments[last] + [e]];
      log := log + [e];
      if sender {
        sender := handle.TrySendMessage(message);
      }
    }

    /** The clock, which does not go back, and is not past `until` before the call is over. */
    method Now(since: nat, until: nat) returns (now: nat)
      requires since <= until
      ensures since <= now <= until
    {
      now :| since <= now <= until;
    }

    /** Capacity for timers may run out at any time. */
    method PollTimer(now: nat) returns (r: TimerPoll)
      requires timer.Some?
      ensures r.Fired? ==> timer.value <= now
      ensures r.NotYet? ==> now < timer.value
    {
      if
      case true => r := if timer.value <= now then Fired else NotYet;
      case true => r := AtCapacity;
    }

    /** The timer has fired; it is set again at once. */
    method SendContinue(c: cseq, now: nat)
      requires Valid() && serviced == Some(c) && timer.Some?
      modifies `segments, `log, `sender, `timer, handle`outgoing
      ensures Valid() && old(log) <= log && GivesUp(old(sender), old(log)) && timer == Some(now + wait.value)
      ensures Abstract() == DoChore(tables, old(Abstract()), SendTimer)
    {
      hide Tally, Flatten, Written, WithCSeq, Plain;
      TallySizes(tables, dequeued, outcomes, segments);
      ghost var before := segments;
      SendResponse(c, Plain(tables.phrase, CONTINUE), true);
      TimerCounts(tables, dequeued, outcomes, before, segments);
      timer := Some(now + wait.value);
    }

    method StopTimer()
      requires Valid()
      modifies `timer
      ensures Valid() && timer.None?
    {
      timer := None;
    }

    /** One look at the timer, and what it leads to. */
    method Tick(c: cseq, since: nat, until: nat) returns (polled: TimerPoll, ghost fired: nat, now: nat)
      requires Valid() && serviced == Some(c) && timer.Some? && since <= until
      modifies `segments, `log, `sender, `timer, handle`outgoing
      ensures Valid() && old(log) <= log && GivesUp(old(sender), old(log)) && since <= fired <= now <= until
      ensures wait.Some?
      ensures Abstract() == if polled.Fired? then DoChore(tables, old(Abstract()), SendTimer) else old(Abstract())
      ensures match polled
        case Fired => old(timer).value <= fired && timer == Some(now + wait.value)
        case NotYet => timer == old(timer) && since < timer.value
        case AtCapacity => timer.None?
    {
      hide DoChore;
      assert wait.Some? && GivesUp(sender, log);
      hide Valid;
      now := Now(since, until);
      fired := now;
      polled := PollTimer(now);
      match polled
      case Fired =>
        now := Now(now, until);
        SendContinue(c, now);
      case NotYet =>
      case AtCapacity => StopTimer();
    }

    /** Sends a continue each time the timer fires, until it does not or is given up. Each takes at least
        the wait, and with none there is no end to it (`StopsIfPositive`). */
    method PollContinueTimer(c: cseq, since: nat, until: nat) returns (r: Poll, ghost chores: seq<Chore>)
      requires Valid() && serviced == Some(c) && since <= until && wait != Some(0)
      modifies this, handle`outgoing
      ensures Valid() && serviced == Some(c) && SameIntake(old(dequeued), old(incoming))
      ensures outcomes == old(outcomes) && old(log) <= log
      ensures ended == old(ended) && shutdownEvent == old(shutdownEvent) && GivesUp(old(sender), old(log))
      ensures r.Ready? <==> timer.None?
      ensures timer.Some? ==> since < timer.value
      ensures IsTimed(old(timer), timer, wait, |chores|, until)
      ensures OnlySendTimer(chores) && Abstract() == DoChores(tables, old(Abstract()), chores)
    {
      chores := [];
      var now: nat := since;
      assert timer.Some? ==> wait.Some?;
      GivesUpIs(sender, log);
      NotFiredYet(timer, wait, until);
      hide Valid, GivesUp, IsTimed;
      while timer.Some?
        invariant Valid() && serviced == Some(c) && SameIntake(old(dequeued), old(incoming)) && now <= until
        invariant outcomes == old(outcomes) && old(log) <= log
        invariant ended == old(ended) && shutdownEvent == old(shutdownEvent) && GivesUp(old(sender), old(log))
        invariant since <= now && (timer.Some? ==> wait.Some?)
        invariant IsTimed(old(timer), timer, wait, |chores|, until)
        invariant OnlySendTimer(chores) && Abstract() == DoChores(tables, old(Abstract()), chores)
        decreases timer.Some?, if timer.Some? then until + wait.value - timer.value else 0
      {
        hide DoChore, DoChores;
        ghost var before, said, due := sender, log, timer;
        GivesUpIs(old(sender), old(log));
        ghost var fired;
        var polled;
        polled, fired, now := Tick(c, now, until);
        GivesUpOn(old(sender), old(log), before, said);
        match polled {
          case Fired =>
            FiresOnceMore(old(timer), due, wait.value, |chores|, until, fired, now);
            OneMore(tables, old(Abstract()), chores, SendTimer);
            chores := chores + [SendTimer];
          case NotYet => return NotReady, chores;
          case AtCapacity => GivenUp(old(timer), due, wait, |chores|, until);
        }
      }
      return Ready, chores;
    }

    /** The request being served is over. */
    method Finish(c: cseq, response: Message, ghost outcome: Outcome)
      requires Valid() && serviced == Some(c)
      requires outcome == Served(response)
        || (outcome == ServiceFailed && response == Plain(tables.phrase, INTERNAL_SERVER_ERROR))
      modifies this, handle`outgoing
      ensures Valid() && serviced.None? && timer.None? && SameIntake(old(dequeued), old(incoming))
      ensures outcomes == old(outcomes) + [outcome] && old(log) <= log
      ensures ended == old(ended) && shutdownEvent == old(shutdownEvent) && GivesUp(old(sender), old(log))
      ensures Abstract() == DoChore(tables, old(Abstract()), Settle(outcome))
    {
      hide Tally, Flatten, Written, WithCSeq;
      TallySizes(tables, dequeued, outcomes, segments);
      ghost var before := segments;
      SendResponse(c, response, false);
      FinalCounts(tables, dequeued, outcomes, before, segments, outcome);
      timer := None;
      serviced := None;
      outcomes := outcomes + [outcome];
    }

    /** Ready when nothing is being served any more. */
    method PollServicedRequest(since: nat, until: nat) returns (r: Poll, ghost chores: seq<Chore>)
      requires Valid() && since <= until && wait != Some(0)
      modifies this, handle`outgoing
      ensures Valid() && SameIntake(old(dequeued), old(incoming))
      ensures old(outcomes) <= outcomes && old(log) <= log
      ensures ended == old(ended) && shutdownEvent == old(shutdownEvent) && GivesUp(old(sender), old(log))
      ensures r.Ready? <==> serviced.None?
      ensures old(serviced).None? ==> serviced.None? && outcomes == old(outcomes)
      ensures old(serviced).Some? ==>
        match service.replies(old(serviced).value)
        case Answered(response) => serviced.None? && outcomes == old(outcomes) + [Served(response)]
        case Errored => serviced.None? && outcomes == old(outcomes) + [ServiceFailed]
        case StillServing => serviced == old(serviced) && outcomes == old(outcomes)
      ensures timer.Some? ==> since < timer.value
      ensures Abstract() == DoChores(tables, old(Abstract()), chores)
    {
      hide Valid, DoChore;
      match serviced
      case None =>
        IdleHasNoTimer();
        return Ready, [];
      case Some(c) =>
        var polled := service.replies(c);
        match polled {
          case Answered(response) =>
            Finish(c, response, Served(response));
            OneMore(tables, old(Abstract()), [], Settle(Served(response)));
            return Ready, [] + [Settle(Served(response))];
          case StillServing =>
            ghost var ticks;
            var ignored;
            ignored, ticks := PollContinueTimer(c, since, until);
            return NotReady, ticks;
          case Errored =>
            Finish(c, Plain(tables.phrase, INTERNAL_SERVER_ERROR), ServiceFailed);
            OneMore(tables, old(Abstract()), [], Settle(ServiceFailed));
            return Ready, [] + [Settle(ServiceFailed)];
        }
    }

    /** The state with the request still in the queue. */
    ghost function Waiting(item: (cseq, Message)): Desk
      reads this
    {
      Abstract().(incoming := [item] + incoming)
    }

    method TurnAway(c: cseq, request: Message, status: nat)
      requires Valid() && serviced.None? && shutdownEvent && Verdict(tables, request) == Some(status)
      modifies this, handle`outgoing
      ensures Valid() && dequeued == old(dequeued) + [(c, request)] && incoming == old(incoming)
      ensures serviced == None && outcomes == old(outcomes) + [TurnedAway]
      ensures old(log) <= log && ended == old(ended) && shutdownEvent && GivesUp(old(sender), old(log))
      ensures Abstract() == DoChore(tables, old(Waiting((c, request))), TakeNext)
    {
      hide Tally, Flatten, Written, WithCSeq, Verdict;
      FlattenOpens(segments);
      ghost var before := segments;
      ghost var e := Entry(c, false, WithCSeq(Plain(tables.phrase, status), c));
      TurnAwayCounts(tables, dequeued, outcomes, segments, (c, request), e);
      dequeued := dequeued + [(c, request)];
      segments := segments + [[]];
      SendResponse(c, Plain(tables.phrase, status), false);
      outcomes := outcomes + [TurnedAway];
      assert [] + [e] == [e];
      assert segments == before + [[e]];
    }

    method Serve(c: cseq, request: Message, now: nat)
      requires Valid() && serviced.None? && shutdownEvent && Verdict(tables, request).None?
      modifies this, handle`outgoing
      ensures Valid() && dequeued == old(dequeued) + [(c, request)] && incoming == old(incoming)
      ensures serviced == Some(c) && outcomes == old(outcomes)
      ensures timer == if wait.Some? then Some(now + wait.value) else None
      ensures log == old(log) && ended == old(ended) && shutdownEvent && GivesUp(old(sender), old(log))
      ensures Abstract() == DoChore(tables, old(Waiting((c, request))), TakeNext)
    {
      hide Tally, Flatten, Written, Verdict;
      FlattenOpens(segments);
      OpenCounts(tables, dequeued, outcomes, segments, (c, request));
      dequeued := dequeued + [(c, request)];
      segments := segments + [[]];
      timer := if wait.Some? then Some(now + wait.value) else None;
      serviced := Some(c);
    }

    /** Turns the request away or hands it to the service. */
    method ProcessRequest(c: cseq, request: Message, now: nat)
      requires Valid() && serviced.None? && shutdownEvent
      modifies this, handle`outgoing
      ensures Valid() && dequeued == old(dequeued) + [(c, request)] && incoming == old(incoming)
      ensures serviced == if IsUnimplemented(tables, request) || LacksType(request) then None else Some(c)
      ensures serviced.Some? ==> timer == if wait.Some? then Some(now + wait.value) else None
      ensures outcomes ==
        if IsUnimplemented(tables, request) || LacksType(request) then old(outcomes) + [TurnedAway] else old(outcomes)
      ensures old(log) <= log && ended == old(ended) && shutdownEvent && GivesUp(old(sender), old(log))
      ensures Abstract() == DoChore(tables, old(Waiting((c, request))), TakeNext)
    {
      hide Valid, DeclaredLength, DoChore;
      VerdictExact(tables, request);
      if request.Request? && tables.isRtspu(request.uri) {
        TurnAway(c, request, NOT_IMPLEMENTED);
        return;
      }
      var length := DeclaredLength(request.headers);
      if length.Some? && length.value > 0 && Values(request.headers, CONTENT_TYPE) == [] {
        TurnAway(c, request, BAD_REQUEST);
      } else {
        Serve(c, request, now);
      }
    }

    /** Lets go of everything and announces it, once. */
    method Shutdown()
      requires Valid()
      modifies this
      ensures Valid() && !shutdownEvent && events == 1
      ensures log == old(log) && outcomes == old(outcomes) && SameIntake(old(dequeued), old(incoming))
      ensures ended == old(ended) && Abstract() == old(Abstract())
    {
      timer := None;
      sender := false;
      serviced := None;
      if shutdownEvent {
        shutdownEvent := false;
        events := events + 1;
      }
    }

    lemma IdleHasNoTimer()
      requires Valid() && serviced.None?
      ensures timer.None? && GivesUp(sender, log)
    {
    }

    lemma AllSettled()
      requires Valid() && serviced.None? && shutdownEvent
      ensures |outcomes| == |dequeued|
    {
    }

    method NextRequest() returns (item: (cseq, Message))
      requires Valid() && incoming != []
      modifies `incoming
      ensures Valid() && item == old(incoming)[0] && incoming == old(incoming)[1..]
    {
      item := incoming[0];
      incoming := incoming[1..];
    }

    /** The first request of the queue is turned away or goes to the service. */
    method Take(since: nat, until: nat)
      requires Valid() && serviced.None? && shutdownEvent && incoming != [] && since <= until
      modifies this, handle`outgoing
      ensures Valid() && shutdownEvent && ended == old(ended) && GivesUp(old(sender), old(log))
      ensures old(dequeued) <= dequeued && dequeued + incoming == old(dequeued) + old(incoming)
      ensures |incoming| < |old(incoming)| && old(outcomes) <= outcomes && old(log) <= log
      ensures Abstract() == DoChore(tables, old(Abstract()), TakeNext)
    {
      hide Valid, Verdict, DoChore;
      assert dequeued + incoming == dequeued + [incoming[0]] + incoming[1..];
      assert incoming == [incoming[0]] + incoming[1..];
      var item := NextRequest();
      var now := Now(since, until);
      ProcessRequest(item.0, item.1, now);
    }

    /** Works through the queue, one request after the other; what it does is a run of chores. */
    method PollOnce(since: nat, until: nat) returns (r: Poll, ghost chores: seq<Chore>)
      requires Valid() && shutdownEvent && since <= until && wait != Some(0)
      modifies this, handle`outgoing
      ensures Valid()
      ensures Abstract() == DoChores(tables, old(Abstract()), chores)
      ensures old(dequeued) <= dequeued
      ensures dequeued + incoming == old(dequeued) + old(incoming)
      ensures old(outcomes) <= outcomes && old(log) <= log
      ensures r.Ready? ==> incoming == [] && ended && |outcomes| == |dequeued| && events == 1
      ensures r.NotReady? ==> shutdownEvent && GivesUp(old(sender), old(log))
      ensures r.NotReady? ==>
        if serviced.Some? then service.replies(serviced.value).StillServing? else incoming == [] && !ended
      ensures timer.Some? ==> since < timer.value
      ensures old(sender) && handle.alive ==> handle.outgoing == Written(log)
    {
      hide Valid, Verdict, DoChore, GivesUp;
      GivesUpIs(sender, log);
      ghost var all := dequeued + incoming;
      chores := [];
      while true
        invariant Valid() && shutdownEvent && ended == old(ended)
        invariant old(dequeued) <= dequeued && dequeued + incoming == all
        invariant old(outcomes) <= outcomes && old(log) <= log && GivesUp(old(sender), old(log))
        invariant Abstract() == DoChores(tables, old(Abstract()), chores)
        decreases |incoming|
      {
        hide DoChores;
        var polled;
        ghost var done;
        ghost var before, said := sender, log;
        GivesUpIs(old(sender), old(log));
        polled, done := PollServicedRequest(since, until);
        GivesUpOn(old(sender), old(log), before, said);
        SenderHears(old(sender), old(log));
        ChoresAppend(tables, old(Abstract()), chores, done);
        chores := chores + done;
        if polled.NotReady? {
          return NotReady, chores;
        }
        if incoming == [] {
          if ended {
            AllSettled();
            Shutdown();
            return Ready, chores;
          }
          return NotReady, chores;
        }
        before, said := sender, log;
        GivesUpIs(old(sender), old(log));
        Take(since, until);
        GivesUpOn(old(sender), old(log), before, said);
        OneMore(tables, old(Abstract()), chores, TakeNext);
        chores := chores + [TakeNext];
      }
    }
  }

  // ---------------------------------------------------------------- with the forwarding receiver

  /** The reorder buffer and the handler, joined by the channel: what is forwarded is queued. */
  datatype Joint = Joint(line: Reordering.Line, desk: Desk)

  datatype Act = OnLine(event: Reordering.Event) | OnDesk(chore: Chore)

  const START := Joint(Reordering.EMPTY_LINE, Desk([], [], [], []))

  function Do(tables: Tables, size: nat, j: Joint, act: Act): Joint {
    match act
    case OnLine(event) =>
      var line := Reordering.Step(size, j.line, event);
      var forwarded := if |line.sent| > |j.line.sent| then line.sent[|j.line.sent|..] else [];
      Joint(line, j.desk.(incoming := j.desk.incoming + forwarded))
    case OnDesk(chore) => j.(desk := DoChore(tables, j.desk, chore))
  }

  function RunOf(tables: Tables, size: nat, j: Joint, acts: seq<Act>): Joint
    decreases |acts|
  {
    if acts == [] then j else RunOf(tables, size, Do(tables, size, j, acts[0]), acts[1..])
  }

  /** The line of a joint run is a run of its own. */
  function LineEvents(acts: seq<Act>): seq<Reordering.Event> {
    if acts == [] then []
    else (if acts[0].OnLine? then [acts[0].event] else []) + LineEvents(acts[1..])
  }

  lemma {:induction false} LineRuns(tables: Tables, size: nat, j: Joint, acts: seq<Act>)
    ensures RunOf(tables, size, j, acts).line == Reordering.RunFrom(size, j.line, LineEvents(acts))
    decreases |acts|
  {
    hide Reordering.Step, DoChore;
    if acts != [] {
      var next := Do(tables, size, j, acts[0]);
      LineRuns(tables, size, next, acts[1..]);
      if acts[0].OnLine? {
        assert ([acts[0].event] + LineEvents(acts[1..]))[1..] == LineEvents(acts[1..]);
      } else {
        assert [] + LineEvents(acts[1..]) == LineEvents(acts[1..]);
      }
    }
  }

  /** What was taken and what is queued is what was forwarded. */
  predicate Joined(tables: Tables, j: Joint) {
    && Tally(tables, j.desk.dequeued, j.desk.outcomes, j.desk.segments)
    && j.desk.dequeued + j.desk.incoming == j.line.sent
  }

  lemma SentGrows(size: nat, l: Reordering.Line, e: Reordering.Event)
    ensures l.sent <= Reordering.Step(size, l, e).sent
  {
    hide CSeqOf;
  }

  lemma ActKeeps(tables: Tables, size: nat, j: Joint, act: Act)
    requires Joined(tables, j)
    ensures Joined(tables, Do(tables, size, j, act))
  {
    hide Tally, Reordering.Step, DoChore;
    match act
    case OnDesk(chore) => ChoreKeeps(tables, j.desk, chore);
    case OnLine(event) =>
      SentGrows(size, j.line, event);
      var line := Reordering.Step(size, j.line, event);
      var n := |j.line.sent|;
      assert line.sent == line.sent[..n] + line.sent[n..];
      assert j.desk.dequeued + (j.desk.incoming + line.sent[n..]) == j.line.sent + line.sent[n..];
  }

  lemma {:induction false} ActsKeep(tables: Tables, size: nat, j: Joint, acts: seq<Act>)
    requires Joined(tables, j)
    ensures Joined(tables, RunOf(tables, size, j, acts))
    decreases |acts|
  {
    hide Joined, Do;
    if acts != [] {
      ActKeeps(tables, size, j, acts[0]);
      ActsKeep(tables, size, Do(tables, size, j, acts[0]), acts[1..]);
    }
  }

  /** Every message of a segment bears the number, and a final one comes last and only there. */
  predicate AnswersUnder(segment: seq<Entry>, c: cseq) {
    && segment != []
    && (forall i :: 0 <= i < |segment| ==> CSeqOf(segment[i].message) == Some(c))
    && (forall i :: 0 <= i < |segment| ==> (segment[i].timer <==> i < |segment| - 1))
    && (forall i :: 0 <= i < |segment| - 1 ==> segment[i].message.Response? && segment[i].message.status == 100)
  }

  predicate AnswersNth(first: Option<cseq>, segment: seq<Entry>, i: nat) {
    first.Some? && AnswersUnder(segment, Ahead(first.value, i))
  }

  lemma SegmentAnswers(tables: Tables, item: (cseq, Message), outcome: Outcome, segment: seq<Entry>)
    requires Settles(tables, item, outcome, segment)
    ensures AnswersUnder(segment, item.0)
  {
    hide CSeqOf, WithCSeq, Answer, Verdict;
    var last := |segment| - 1;
    CSeqReadsBack(Answer(tables, item.1, outcome), item.0);
    CSeqReadsBack(Plain(tables.phrase, CONTINUE), item.0);
    forall i | 0 <= i < |segment|
      ensures CSeqOf(segment[i].message) == Some(item.0) && (segment[i].timer <==> i < last)
    {
      assert i < last ==> segment[..last][i] == segment[i];
    }
  }

  /** Whatever arrives in whatever order, and however forwarding and service take turns: the requests are
      answered in the order of their numbers from the first one on, each once, and every forwarded
      request is queued or was taken. */
  lemma AnsweredInOrder(tables: Tables, size: nat, acts: seq<Act>)
    ensures var j := RunOf(tables, size, START, acts);
      && j.desk.dequeued + j.desk.incoming == j.line.sent
      && |j.desk.outcomes| <= |j.desk.segments|
      && (forall i :: 0 <= i < |j.desk.outcomes| ==>
            AnswersNth(Reordering.First(j.line), j.desk.segments[i], i))
  {
    var j := RunOf(tables, size, START, acts);
    assert Joined(tables, START);
    ActsKeep(tables, size, START, acts);
    LineRuns(tables, size, START, acts);
    Reordering.DeliveredInOrder(size, LineEvents(acts));
    hide RunOf, Reordering.RunFrom, AnswersUnder, Settles;
    forall i | 0 <= i < |j.desk.outcomes|
      ensures AnswersNth(Reordering.First(j.line), j.desk.segments[i], i)
    {
      assert j.desk.dequeued[i] == j.line.sent[i];
      assert Reordering.IsNth(Reordering.First(j.line).value, i, j.line.sent[i]);
      SegmentAnswers(tables, j.desk.dequeued[i], j.desk.outcomes[i], j.desk.segments[i]);
    }
  }

  /** How a request was answered at last: 501 for the scheme, 400 for a body of no type, and the service never
      sees those; otherwise what the service answers, or 500 if it fails. */
  ghost predicate IsAnswered(tables: Tables, item: (cseq, Message), outcome: Outcome, last: Message) {
    if IsUnimplemented(tables, item.1) then outcome == TurnedAway && last.Response? && last.status == 501
    else if LacksType(item.1) then outcome == TurnedAway && last.Response? && last.status == 400
    else
      || (outcome == ServiceFailed && last.Response? && last.status == 500)
      || (outcome.Served? && last == WithCSeq(outcome.response, item.0))
  }

  /** The request is turned away, by the one answer that it gets, just for its scheme or its body. */
  ghost predicate IsSettled(tables: Tables, item: (cseq, Message), outcome: Outcome, segment: seq<Entry>) {
    && segment != [] && IsAnswered(tables, item, outcome, segment[|segment| - 1].message)
    && (outcome == TurnedAway <==> IsUnimplemented(tables, item.1) || LacksType(item.1))
    && (outcome == TurnedAway ==> |segment| == 1)
  }

  lemma SettlesExact(tables: Tables, item: (cseq, Message), outcome: Outcome, segment: seq<Entry>)
    requires Settles(tables, item, outcome, segment)
    ensures IsSettled(tables, item, outcome, segment)
  {
    VerdictExact(tables, item.1);
    hide Verdict, LacksType, OnlyTimers;
  }

  /** In every joint run: the requests that never reach the service are exactly those with the scheme or with a
      body of no type, each answered once with its status; and the one in service is none of them. */
  lemma TurnedAwayExact(tables: Tables, size: nat, acts: seq<Act>)
    ensures var d := RunOf(tables, size, START, acts).desk;
      && |d.outcomes| <= |d.dequeued| == |d.segments|
      && (forall i :: 0 <= i < |d.outcomes| ==> IsSettled(tables, d.dequeued[i], d.outcomes[i], d.segments[i]))
      && (forall i :: |d.outcomes| <= i < |d.dequeued| ==>
            !IsUnimplemented(tables, d.dequeued[i].1) && !LacksType(d.dequeued[i].1))
  {
    assert Joined(tables, START);
    ActsKeep(tables, size, START, acts);
    var d := RunOf(tables, size, START, acts).desk;
    hide RunOf, Settles, Verdict, LacksType, IsSettled, IsUnimplemented;
    forall i | 0 <= i < |d.outcomes| ensures IsSettled(tables, d.dequeued[i], d.outcomes[i], d.segments[i]) {
      SettlesExact(tables, d.dequeued[i], d.outcomes[i], d.segments[i]);
    }
    forall i | |d.outcomes| <= i < |d.dequeued|
      ensures !IsUnimplemented(tables, d.dequeued[i].1) && !LacksType(d.dequeued[i].1)
    {
      VerdictExact(tables, d.dequeued[i].1);
    }
  }
}
