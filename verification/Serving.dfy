/** A connection polled through its life: what its handler gets of the requests on its stream, and how the
    responses on it meet the requests that were sent. */
module Serving {
  import opened Bytes
  import opened Decoding
  import opened CSeqs
  import opened Reordering
  import opened Receiving
  import Connections
  import Pending
  import Registration
  import Shutdowns

  /** What came on the stream since the last poll, and what the surroundings are at this one. */
  datatype Occasion = Occasion(arrived: seq<Message>, ending: Ending, around: Connections.Surroundings)

  function Arrived(occasions: seq<Occasion>): seq<Message> {
    if occasions == [] then [] else Arrived(occasions[..|occasions| - 1]) + occasions[|occasions| - 1].arrived
  }

  function OnlyArrivals(events: seq<Event>): seq<Event> {
    if events == [] then []
    else
      var e := events[|events| - 1];
      OnlyArrivals(events[..|events| - 1]) + if e.Arrive? then [e] else []
  }

  /** The channel got what the run of the reorder buffer sends; the buffer is that of the run unless the
      handler was found gone. */
  predicate IsServed(size: nat, l: Line, events: seq<Event>, gone: bool, l': Line) {
    var r := RunFrom(size, l, events);
    l'.sent == r.sent && l'.accepted == r.accepted && (!gone ==> l' == r)
  }

  function Forwards(k: nat): seq<Event> {
    seq(k, _ => Forward)
  }

  lemma {:induction false} ArrivalsJoin(a: seq<Message>, b: seq<Message>)
    ensures Arrivals(a + b) == Arrivals(a) + Arrivals(b)
    decreases |a|
  {
    if a == [] {
      assert a + b == b;
    } else {
      var first := if a[0].Request? then [Arrive(a[0])] else [];
      assert (a + b)[0] == a[0] && (a + b)[1..] == a[1..] + b;
      assert Arrivals(a + b) == first + Arrivals(a[1..] + b) && Arrivals(a) == first + Arrivals(a[1..]);
      ArrivalsJoin(a[1..], b);
      hide Arrivals;
    }
  }

  lemma {:induction false} OnlyArrivalsJoin(a: seq<Event>, b: seq<Event>)
    ensures OnlyArrivals(a + b) == OnlyArrivals(a) + OnlyArrivals(b)
    decreases |b|
  {
    if b == [] {
      assert a + b == a;
    } else {
      assert (a + b)[..|a + b| - 1] == a + b[..|b| - 1];
      OnlyArrivalsJoin(a, b[..|b| - 1]);
    }
  }

  lemma {:induction false} ArrivalsArrive(ms: seq<Message>)
    ensures OnlyArrivals(Arrivals(ms)) == Arrivals(ms)
    decreases |ms|
  {
    if ms != [] {
      var first := if ms[0].Request? then [Arrive(ms[0])] else [];
      OnlyArrivalsJoin(first, Arrivals(ms[1..]));
      ArrivalsArrive(ms[1..]);
      assert first != [] ==> first[..0] == [];
    }
  }

  lemma {:induction false} ForwardsDoNotArrive(events: seq<Event>)
    requires OnlyForwards(events)
    ensures OnlyArrivals(events) == []
    decreases |events|
  {
    if events != [] {
      ForwardsDoNotArrive(events[..|events| - 1]);
    }
  }

  /** What was read and what was forwarded of it, as one run. */
  lemma PollIsRun(size: nat, l: Line, read: seq<Event>, t: Line, k: nat, gone: bool, l': Line)
    requires t == RunFrom(size, l, read)
    requires !gone ==> l' == Forwarded(t, k)
    requires gone ==> l'.sent == Forwarded(t, k).sent && l'.accepted == Forwarded(t, k).accepted
    ensures IsServed(size, l, read + Forwards(k), gone, l')
  {
    ForwardsRun(size, t, Forwards(k));
    RunAppends(size, l, read, Forwards(k));
  }

  lemma ServedOn(size: nat, l: Line, a: seq<Event>, gone: bool, l': Line, b: seq<Event>, gone': bool, l'': Line)
    requires IsServed(size, l, a, gone, l') && IsServed(size, l', b, gone', l'')
    requires gone ==> b == [] && l'' == l'
    ensures IsServed(size, l, a + b, gone || gone', l'')
  {
    RunAppends(size, l, a, b);
    assert a + [] == a;
  }

  lemma TurnsOff(s: Connections.Snapshot, s': Connections.Snapshot, ready: bool)
    requires Connections.Turned(s, s', ready)
    ensures s'.receiver.Some? ==> s.receiver.Some? && OnlyOff(s.receiver.value, s'.receiver.value)
  {
  }

  lemma ReadFurther(inbox: seq<Message>, before: seq<Message>, taken: seq<Message>, rest: seq<Message>,
                arrived: seq<Message>, more: seq<Message>, rest': seq<Message>)
    requires inbox + before == taken + rest && rest + arrived == more + rest'
    ensures inbox + (before + arrived) == (taken + more) + rest'
  {
    assert inbox + (before + arrived) == (inbox + before) + arrived;
    assert (taken + rest) + arrived == taken + (rest + arrived);
    assert taken + (more + rest') == (taken + more) + rest';
  }

  /** One poll: a prefix of the stream is read; its requests, if they are allowed, go to the line, and
      some of what is ready goes to the handler. */
  method PollOnce(connection: Connections.Connection, o: Occasion)
    returns (ready: bool, ghost gone: bool, ghost taken: seq<Message>, ghost events: seq<Event>)
    requires connection.Valid()
    modifies connection, connection.receiver, connection.receiver.forwardingReceiver,
      connection.receiver.forwardingReceiver.channel, connection.shutdown,
      connection.receiver.responseReceiver, connection.receiver.responseReceiver.net
    ensures connection.Valid() && Connections.Turned(old(connection.State()), connection.State(), ready)
    ensures old(connection.receiver.inbox) + o.arrived == taken + connection.receiver.inbox
    ensures OnlyArrivals(events) == if old(connection.Accepts()) then Arrivals(taken) else []
    ensures !old(connection.Accepts()) ==> OnlyForwards(events)
    ensures IsServed(connection.receiver.forwardingReceiver.size, old(connection.receiver.Line()), events, gone,
                     connection.receiver.Line())
    ensures connection.Accepts() ==> old(connection.Accepts())
    ensures connection.Forwards() ==> old(connection.Forwards())
    ensures gone ==> !connection.Forwards()
    ensures !old(connection.Forwards()) ==>
      events == [] && connection.receiver.Line() == old(connection.receiver.Line())
    ensures old(connection.NoneStranded() && !connection.Stops(o.around)) && !gone ==> connection.NoneStranded()
  {
    hide RunFrom, Forwarded, Ready, HasReady, TakeAll, ReadOn, AsksForMore, AnswerTo, Connections.Turned;
    hide IsServed, OnlyArrivals, Arrivals, Connections.Connection.MatcherOk, Receiver.MatcherPolled, Registration.Wrote;
    var receiver := connection.receiver;
    receiver.inbox, receiver.ending := receiver.inbox + o.arrived, o.ending;
    ghost var before, t, read := receiver.Line(), receiver.Taken(), [];
    taken := [];
    NothingRuns(receiver.forwardingReceiver.size, before);
    ArrivalsArrive([]);
    if connection.hasReceiver {
      t := receiver.Read(o.around.updatesEnded, connection.hasSender);
      taken := receiver.ReadIsRun(o.around.updatesEnded, connection.hasSender);
      read := Seen(receiver.State(), taken);
      ArrivalsArrive(taken);
    }
    ghost var k: nat;
    ghost var s := connection.State();
    var r, _, lost, n := connection.PollOnce(o.around);
    TurnsOff(s, connection.State(), r.Ready?);
    ready, gone, k, events := r.Ready?, lost, n, read + Forwards(n);
    NoneForwarded(t.line);
    PollIsRun(receiver.forwardingReceiver.size, before, read, t.line, k, gone, receiver.Line());
    ForwardsDoNotArrive(Forwards(k));
    OnlyArrivalsJoin(read, Forwards(k));
    assert [] + Forwards(k) == Forwards(k);
  }

  /** The runs of two stretches of polls make one run, and its arrivals are still the requests that were
      read while requests were allowed. */
  predicate Follows(accepts: bool, taken: seq<Message>, events: seq<Event>) {
    OnlyArrivals(events) <= Arrivals(taken) && (accepts ==> OnlyArrivals(events) == Arrivals(taken))
  }

  lemma FollowsOn(a: bool, taken: seq<Message>, events: seq<Event>, b: bool, more: seq<Message>, later: seq<Event>)
    requires Follows(a, taken, events) && (b ==> a)
    requires OnlyArrivals(later) == if a then Arrivals(more) else []
    ensures Follows(b, taken + more, events + later)
  {
    ArrivalsJoin(taken, more);
    OnlyArrivalsJoin(events, later);
  }

  lemma OnlyForwardsJoin(a: seq<Event>, b: seq<Event>)
    requires OnlyForwards(a) && OnlyForwards(b)
    ensures OnlyForwards(a + b)
  {
  }

  /** Nothing more is allowed in, and nothing that is ready was left behind. */
  lemma ForwardedIsDrained(size: nat, l: Line, events: seq<Event>, l': Line)
    requires OnlyForwards(events) && IsServed(size, l, events, false, l') && !HasReady(l')
    ensures IsDrained(l, l')
  {
    ForwardsRun(size, l, events);
    if |events| < Ready(l) {
      ForwardedNext(l, |events|);
    }
    ForwardedAll(l, |events|);
    ForwardedSends(l, Ready(l));
  }

  /** A connection polled any number of times, whatever comes and whatever else happens. What was read is a
      prefix of the stream. The requests read while requests were allowed drive one run of the reorder
      buffer, and the handler's channel got exactly what that run sends. As long as neither the handler
      goes nor the connection is stopped at once, forwarding is given up only with nothing ready; so if no
      requests are allowed any more, all that was ready was forwarded. */
  method Serve(connection: Connections.Connection, occasions: seq<Occasion>)
    returns (ghost gone: bool, ghost stopped: bool, ghost taken: seq<Message>, ghost events: seq<Event>)
    requires connection.Valid()
    modifies connection, connection.receiver, connection.receiver.forwardingReceiver,
      connection.receiver.forwardingReceiver.channel, connection.shutdown,
      connection.receiver.responseReceiver, connection.receiver.responseReceiver.net
    ensures connection.Valid()
    ensures old(connection.receiver.inbox) + Arrived(occasions) == taken + connection.receiver.inbox
    ensures old(connection.Accepts()) ==> Follows(connection.Accepts(), taken, events)
    ensures !old(connection.Accepts()) ==> OnlyForwards(events) && !connection.Accepts()
    ensures IsServed(connection.receiver.forwardingReceiver.size, old(connection.receiver.Line()), events, gone,
                     connection.receiver.Line())
    ensures old(connection.NoneStranded()) && !gone && !stopped ==> connection.NoneStranded()
    ensures old(connection.NoneStranded() && !connection.Accepts()) && !gone && !stopped && !connection.Forwards() ==>
      IsDrained(old(connection.receiver.Line()), connection.receiver.Line())
  {
    hide RunFrom, HasReady, Arrivals, OnlyArrivals, IsServed, Follows, OnlyForwards, IsDrained, Connections.Turned;
    var receiver, size := connection.receiver, connection.receiver.forwardingReceiver.size;
    gone, stopped, taken, events := false, false, [], [];
    Begins(size, receiver.Line(), connection.Accepts());
    ghost var accepts := connection.Accepts();
    for i := 0 to |occasions|
      invariant connection.Valid()
      invariant old(receiver.inbox) + Arrived(occasions[..i]) == taken + receiver.inbox
      invariant connection.Accepts() ==> accepts
      invariant accepts ==> Follows(connection.Accepts(), taken, events)
      invariant !accepts ==> OnlyForwards(events)
      invariant IsServed(size, old(receiver.Line()), events, gone, receiver.Line())
      invariant gone ==> !connection.Forwards()
      invariant old(connection.NoneStranded()) && !gone && !stopped ==> connection.NoneStranded()
    {
      assert occasions[..i + 1][..i] == occasions[..i];
      stopped := stopped || connection.Stops(occasions[i].around);
      ghost var before, accepted, rest := receiver.Line(), connection.Accepts(), receiver.inbox;
      var _, lost, more, later := PollOnce(connection, occasions[i]);
      ServedOn(size, old(receiver.Line()), events, gone, before, later, lost, receiver.Line());
      ReadFurther(old(receiver.inbox), Arrived(occasions[..i]), taken, rest,
                  occasions[i].arrived, more, receiver.inbox);
      if accepts {
        FollowsOn(accepted, taken, events, connection.Accepts(), more, later);
      } else {
        OnlyForwardsJoin(events, later);
      }
      gone, taken, events := gone || lost, taken + more, events + later;
    }
    assert occasions[..|occasions|] == occasions;
    if !accepts && !gone && !connection.Forwards() && connection.NoneStranded() {
      ForwardedIsDrained(size, old(receiver.Line()), events, receiver.Line());
    }
  }

  lemma Begins(size: nat, l: Line, accepts: bool)
    ensures IsServed(size, l, [], false, l) && Follows(accepts, [], []) && OnlyForwards([])
  {
  }

  lemma {:induction false} AcceptedArrived(size: nat, l: Line, events: seq<Event>, m: Message)
    requires m in RunFrom(size, l, events).accepted
    ensures m in l.accepted || Arrive(m) in events
    decreases |events|
  {
    if events != [] {
      AcceptedArrived(size, Reordering.Step(size, l, events[0]), events[1..], m);
    }
  }

  /** So from a new connection on the handler's channel gets requests with consecutive numbers, a number
      again only a whole cycle later, each accepted request at most once, and none that did not arrive. */
  lemma ServedInOrder(size: nat, events: seq<Event>, gone: bool, l: Line)
    requires IsServed(size, EMPTY_LINE, events, gone, l)
    ensures forall i :: 0 <= i < |l.sent| ==> First(l).Some? && IsNth(First(l).value, i, l.sent[i])
    ensures forall i, j :: 0 <= i <= j < |l.sent| ==> (l.sent[i].0 == l.sent[j].0 <==> (j - i) % CYCLE == 0)
    ensures multiset(Messages(l.sent)) <= multiset(l.accepted)
    ensures forall m :: m in l.accepted ==> Arrive(m) in events
  {
    hide RunFrom, Held, Messages, InWindow;
    var r := RunOf(size, events);
    DeliveredInOrder(size, events);
    RequestsConserved(size, events);
    assert l.sent != [] ==> r.sent[0] == l.sent[0] && First(r).Some?;
    forall m | m in l.accepted ensures Arrive(m) in events {
      AcceptedArrived(size, EMPTY_LINE, events, m);
    }
  }

  // ---------------------------------------------------------------- while nothing is wrong

  /** The stream is open, the handle and the futures are there, nothing expires, the sender has more to do, and
      nobody asks for a shutdown. */
  predicate IsQuiet(o: Occasion) {
    && o.ending == Open && o.around.signal == Shutdowns.Silent
    && !o.around.updatesEnded && !o.around.decodeExpired && !o.around.senderDone
  }

  const ALL_WELL := Connections.Snapshot(Some(ALL_ON), true, true, Shutdowns.START)

  /** As long as nothing is wrong a connection goes on as it began: requests are accepted, forwarded and allowed,
      responses are matched, and there is a sender, whatever comes on the stream. */
  method KeepServing(connection: Connections.Connection, occasions: seq<Occasion>) returns (ghost gone: bool)
    requires connection.Valid() && connection.State() == ALL_WELL
    requires forall i :: 0 <= i < |occasions| ==> IsQuiet(occasions[i])
    modifies connection, connection.receiver, connection.receiver.forwardingReceiver,
      connection.receiver.forwardingReceiver.channel, connection.shutdown,
      connection.receiver.responseReceiver, connection.receiver.responseReceiver.net
    ensures !gone ==> connection.Valid() && connection.State() == ALL_WELL
  {
    gone := false;
    for i := 0 to |occasions|
      invariant connection.Valid() && (!gone ==> connection.State() == ALL_WELL)
    {
      var lost := PollQuietly(connection, occasions[i]);
      gone := gone || lost;
    }
  }

  method PollQuietly(connection: Connections.Connection, o: Occasion) returns (ghost gone: bool)
    requires connection.Valid()
    modifies connection, connection.receiver, connection.receiver.forwardingReceiver,
      connection.receiver.forwardingReceiver.channel, connection.shutdown,
      connection.receiver.responseReceiver, connection.receiver.responseReceiver.net
    ensures connection.Valid()
    ensures old(connection.State()) == ALL_WELL && IsQuiet(o) && !gone ==> connection.State() == ALL_WELL
  {
    var receiver := connection.receiver;
    receiver.inbox, receiver.ending := receiver.inbox + o.arrived, o.ending;
    var _, _, lost, _ := connection.PollOnce(o.around);
    gone := lost;
  }

  // ---------------------------------------------------------------- responses

  /** Between polls the connection is at the start of a round of its stages, and a poll is such a round: it
      continues the schedule of callers and futures that led to it. So all that holds of every schedule
      (`Registration`) holds of the connection. */
  method PollOnSchedule(connection: Connections.Connection, around: Connections.Surroundings,
                        ghost start: cseq, ghost turns: seq<Registration.Turn>)
    returns (ready: bool, ghost later: seq<Registration.Turn>)
    requires connection.Valid()
    requires Registration.TaskReached(start, turns) && Registration.TaskOf(start, turns) == connection.Task()
    modifies connection, connection.receiver, connection.receiver.forwardingReceiver,
      connection.receiver.forwardingReceiver.channel, connection.shutdown,
      connection.receiver.responseReceiver, connection.receiver.responseReceiver.net
    ensures connection.Valid() && old(connection.receiver.responses) <= connection.receiver.responses
    ensures later == Registration.PollTurns(old(connection.receiver.World()),
      connection.receiver.responses[|old(connection.receiver.responses)|..], connection.Matches(),
      if old(connection.hasSender) then around.writes else 0)
    ensures Registration.TaskReached(start, turns + later)
    ensures Registration.TaskOf(start, turns + later) == connection.Task()
  {
    ghost var k := connection.Task();
    ghost var writes := if connection.hasSender then around.writes else 0;
    var r, _, _, _ := connection.PollOnce(around);
    ghost var responses := connection.receiver.responses[|old(connection.receiver.responses)|..];
    hide Registration.PollTurns, Registration.Turns, Registration.TurnsPaced, Registration.Wrote;
    ready, later := r.Ready?, Registration.PollTurns(k.world, responses, connection.Matches(), writes);
    Registration.PollIsTurns(k, responses, connection.Matches(), writes);
    Registration.TurnsAppend(Registration.Task(Pending.Initial(start), Registration.Draining, 0), turns, later);
  }
}
