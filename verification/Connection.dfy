/** The connection: receiver, sender and shutdown handler under one poll. */
module Connections {
  import opened Bytes
  import opened Decoding
  import opened Receiving
  import Forwarding
  import Matchers
  import Pending
  import Registration
  import Reordering
  import Shutdowns

  /** What of a connection is still there. */
  datatype Snapshot = Snapshot(
    receiver: Option<Parts>,
    sender: bool,
    allowRequests: bool,
    watch: Shutdowns.Watch)

  /** While requests are accepted there is a sender to answer them. */
  predicate SnapshotOk(s: Snapshot) {
    && (s.receiver.Some? ==> PartsOk(s.receiver.value) && (s.receiver.value.allowed ==> s.sender))
    && Shutdowns.Coherent(s.watch)
  }

  predicate AllGone(s: Snapshot) {
    s.receiver.None? && !s.sender && !s.allowRequests && Shutdowns.State(s.watch) == Shutdowns.Shutdown
  }

  /** Everything only goes from on to off, and the shutdown state only moves on. */
  predicate Fades(s: Snapshot, s': Snapshot) {
    && (s'.receiver.Some? ==> s.receiver.Some? && OnlyOff(s.receiver.value, s'.receiver.value))
    && (s'.sender ==> s.sender)
    && (s'.allowRequests ==> s.allowRequests)
    && Shutdowns.Rank(Shutdowns.State(s.watch)) <= Shutdowns.Rank(Shutdowns.State(s'.watch))
    && s.watch.sent <= s'.watch.sent
  }

  /** What one poll does to the whole. */
  predicate Turned(s: Snapshot, s': Snapshot, ready: bool) {
    && SnapshotOk(s')
    && Fades(s, s')
    && (ready <==> s'.receiver.None? && !s'.sender)
    && (ready ==> AllGone(s') && s'.watch.sent == 1)
    && (Shutdowns.State(s'.watch) != Shutdowns.Running ==>
          !s'.allowRequests && (s'.receiver.Some? ==> !s'.receiver.value.allowed))
    && (s'.allowRequests ==> s'.sender && s'.receiver.Some? && s'.receiver.value.responding)
  }

  /** A run of polls: `ready[i]` is what the poll between two snapshots returned. */
  predicate IsRun(run: seq<Snapshot>, ready: seq<bool>) {
    && |run| == |ready| + 1
    && SnapshotOk(run[0])
    && forall i :: 0 <= i < |ready| ==> Turned(run[i], run[i + 1], ready[i])
  }

  lemma {:induction false} RunFades(run: seq<Snapshot>, ready: seq<bool>, i: nat, j: nat)
    requires IsRun(run, ready) && i <= j < |run|
    ensures Fades(run[i], run[j])
    decreases j
  {
    if i < j {
      RunFades(run, ready, i, j - 1);
      assert Turned(run[j - 1], run[j], ready[j - 1]);
    }
  }

  /** Once a poll is ready, everything is gone for good: no requests are allowed again and the shutdown
      event was sent, once. */
  lemma ReadyIsFinal(run: seq<Snapshot>, ready: seq<bool>, i: nat, j: nat)
    requires IsRun(run, ready) && i < |ready| && ready[i] && i < j < |run|
    ensures AllGone(run[j]) && run[j].watch.sent == 1
  {
    assert Turned(run[i], run[i + 1], ready[i]);
    RunFades(run, ready, i + 1, j);
    assert Turned(run[j - 1], run[j], ready[j - 1]);
  }

  // ---------------------------------------------------------------- why something is switched off

  /** What runs: requests accepted, responses matched, requests forwarded, the receiver, the sender, the flag
      that allows requests; and whether a request is ready to be forwarded. */
  datatype Face = Face(
    accepts: bool,
    matches: bool,
    forwards: bool,
    receiver: bool,
    sender: bool,
    allow: bool,
    ready: bool)

  predicate FaceOk(f: Face) {
    && (f.accepts || f.matches || f.forwards ==> f.receiver)
    && (f.accepts ==> f.sender)
  }

  /** What happens in a poll: reading goes on, the handler is found gone, the updates end, the sender is done,
      the state that the shutdown handler is in then, and a watched handler has finished. */
  datatype Causes = Causes(
    reading: bool,
    gone: bool,
    updatesEnded: bool,
    senderDone: bool,
    state: Shutdowns.ShutdownState,
    handlerDone: bool)

  /** Receiving and sending go off just for these causes. */
  predicate PartsTurned(f: Face, f': Face, c: Causes) {
    && (f'.accepts <==> f.accepts && c.reading && !c.gone && !c.senderDone)
    && (f'.matches <==> f.matches && c.reading && !c.updatesEnded)
    && (f'.forwards <==> f.forwards && !c.gone && (f'.accepts || f'.ready))
    && (f'.receiver <==> f.receiver && (f'.accepts || f'.matches || f'.forwards))
    && (f'.sender <==> f.sender && !c.senderDone)
    && f'.allow == f.allow
  }

  function FaceOf(receiver: bool, p: Parts, sender: bool, allow: bool, ready: bool): Face {
    Face(receiver && p.allowed, receiver && p.responding, receiver && p.forwarding, receiver, sender, allow, ready)
  }

  lemma TurnedBy(p: Parts, p': Parts, sender: bool, allow: bool, ready: bool, ready': bool, c: Causes)
    requires GoOff(p, p', c.reading, c.gone, c.updatesEnded, ready')
    ensures PartsTurned(FaceOf(true, p, sender, allow, ready), FaceOf(!IsShutdown(p'), p', sender, allow, ready'),
                        c.(senderDone := false))
    ensures IsShutdown(p') <==> !p'.allowed && !p'.responding && !p'.forwarding
  {
  }

  predicate SenderTurned(f: Face, f': Face, done: bool) {
    && f'.ready == f.ready && f'.allow == f.allow && f'.matches == f.matches
    && (f'.accepts <==> f.accepts && !done)
    && (f'.forwards <==> f.forwards && (f.sender && done ==> f.ready))
    && (f'.receiver <==> f.receiver && (f.sender && done ==> f'.accepts || f'.matches || f'.forwards))
    && (f'.sender <==> f.sender && !done)
  }

  lemma PartsInTwo(f: Face, g: Face, f': Face, c: Causes)
    requires FaceOk(f) && PartsTurned(f, g, c.(senderDone := false)) && SenderTurned(g, f', c.senderDone)
    ensures PartsTurned(f, f', c)
  {
  }

  predicate Reacted(f: Face, f': Face, c: Causes) {
    var running, over := c.state == Shutdowns.Running, c.state == Shutdowns.Shutdown;
    && f'.ready == f.ready
    && (f'.accepts <==> f.accepts && running)
    && (f'.matches <==> f.matches && !over)
    && (f'.forwards <==> f.forwards && !over && (running || f.ready))
    && (f'.receiver <==> f.receiver && !over && (running || f'.accepts || f'.matches || f'.forwards))
    && (f'.sender <==> f.sender && !over && !(running && !f.receiver && c.handlerDone))
    && (f'.allow <==> f.allow && running && f.matches && f.sender)
  }

  /** Each thing goes off in a poll just for a cause. Requests are accepted until reading ends, the handler is
      gone, the sender is done or a shutdown begins; responses are matched until reading or the updates end or
      the shutdown is over; forwarding stops for a gone handler, at the end of a shutdown, or when nothing is
      accepted and nothing is ready; the sender goes when it is done, at the end of a shutdown, or when the
      receiver is gone and a watched handler has finished; and requests are allowed as long as nothing shuts
      down, responses are matched and there is a sender. */
  predicate Caused(f: Face, f': Face, c: Causes) {
    var running, over := c.state == Shutdowns.Running, c.state == Shutdowns.Shutdown;
    && (f'.accepts <==> f.accepts && c.reading && !c.gone && !c.senderDone && running)
    && (f'.matches <==> f.matches && c.reading && !c.updatesEnded && !over)
    && (f'.forwards <==> f.forwards && !c.gone && !over && (f'.accepts || f'.ready))
    && (f'.receiver <==> f.receiver && !over && (f'.accepts || f'.matches || f'.forwards))
    && (f'.sender <==> f.sender && !c.senderDone && !over && !(running && !f'.receiver && c.handlerDone))
    && (f'.allow <==> f.allow && running && f'.matches && f'.sender)
  }

  lemma CausedInTwo(f: Face, g: Face, f': Face, c: Causes)
    requires FaceOk(f) && PartsTurned(f, g, c) && Reacted(g, f', c)
    ensures Caused(f, f', c)
    ensures c.state != Shutdowns.Running ==> !f'.allow && !f'.accepts
    ensures f'.allow ==> f'.sender && f'.matches
    ensures c.state == Shutdowns.Shutdown ==> !f'.receiver && !f'.sender
  {
  }

  datatype Poll = Ready | NotReady

  /** What the surroundings answer during one poll; `writes` is how many requests the sink has room for. */
  datatype Surroundings = Surroundings(
    updatesEnded: bool,
    decodeExpired: bool,
    senderDone: bool,
    handlerDone: bool,
    writes: nat,
    signal: Shutdowns.Signal,
    now: nat)

  class Connection {
    const receiver: Receiver
    const shutdown: Shutdowns.ShutdownHandler
    const watchesHandler: bool
    var hasReceiver: bool
    var hasSender: bool
    var allowRequests: bool
    ghost var written: nat

    ghost function State(): Snapshot
      reads this, receiver, shutdown
    {
      Snapshot(if hasReceiver then Some(receiver.State()) else None, hasSender, allowRequests, shutdown.Abstract())
    }

    ghost predicate Valid()
      reads this, receiver, shutdown, receiver.responseReceiver, receiver.responseReceiver.net
    {
      SnapshotOk(State()) && MatcherOk()
    }

    /** The response receiver goes with the receiver or before it. */
    ghost predicate MatcherOk()
      reads `hasReceiver, receiver`responding, receiver.responseReceiver, receiver.responseReceiver.net
    {
      receiver.responseReceiver.Valid() && (Matches() <==> receiver.responseReceiver.net.alive)
    }

    lemma SoundWatch()
      requires Valid()
      ensures shutdown.Valid()
    {
    }

    lemma FaceIsOk()
      requires Valid()
      ensures FaceOk(Shown())
    {
    }

    lemma ShownAre()
      ensures Shown().accepts == Accepts() && Shown().matches == Matches() && Shown().allow == allowRequests
      ensures Shown().receiver == hasReceiver && Shown().sender == hasSender
    {
    }

    lemma CausesAre(around: Surroundings)
      ensures forall gone :: CausesOf(around, gone).state == StateAfter(around)
      ensures forall gone :: CausesOf(around, gone).handlerDone == (watchesHandler && around.handlerDone)
      ensures forall gone :: CausesOf(around, gone).senderDone == around.senderDone
      ensures Stops(around) <==> StateAfter(around) == Shutdowns.Shutdown
    {
    }

    ghost predicate Matches()
      reads `hasReceiver, receiver`responding
    {
      hasReceiver && receiver.responding
    }

    /** The pending requests and the requests written, as the connection leaves them between polls. */
    ghost function Task(): Registration.Task
      reads `written, receiver.responseReceiver, receiver.responseReceiver.net
    {
      Registration.Task(receiver.World(), Registration.Draining, written)
    }

    constructor (receiver: Receiver, shutdown: Shutdowns.ShutdownHandler, watchesHandler: bool)
      requires receiver.Valid() && receiver.State() == ALL_ON && shutdown.Abstract() == Shutdowns.START
      ensures this.receiver == receiver && this.shutdown == shutdown && this.watchesHandler == watchesHandler
      ensures Valid() && State() == Snapshot(Some(ALL_ON), true, true, Shutdowns.START) && written == 0
    {
      this.receiver := receiver;
      this.shutdown := shutdown;
      this.watchesHandler := watchesHandler;
      hasReceiver, hasSender, allowRequests, written := true, true, true, 0;
    }

    /** The receiver goes on reading responses after the poll. */
    ghost predicate KeepsReading(around: Surroundings)
      reads this, receiver, receiver.forwardingReceiver, receiver.forwardingReceiver.channel
    {
      && hasReceiver && receiver.responding && !around.updatesEnded
      && receiver.StaysOpen(around.updatesEnded, around.decodeExpired)
    }

    /** No request that could be forwarded is left behind: there is a forwarding receiver, or nothing is
        ready. */
    ghost predicate NoneStranded()
      reads `hasReceiver, receiver`forwarding, receiver.forwardingReceiver, receiver.forwardingReceiver.channel
    {
      Forwards() || !Reordering.HasReady(receiver.Line())
    }

    ghost predicate Forwards()
      reads `hasReceiver, receiver`forwarding
    {
      hasReceiver && receiver.forwarding
    }

    ghost predicate Accepts()
      reads `hasReceiver, receiver`requestsAllowed
    {
      hasReceiver && receiver.requestsAllowed
    }

    ghost function Shown(): Face
      reads this, receiver, receiver.forwardingReceiver, receiver.forwardingReceiver.channel
    {
      Face(Accepts(), Matches(), Forwards(), hasReceiver, hasSender, allowRequests,
        Reordering.HasReady(receiver.Line()))
    }

    ghost function CausesOf(around: Surroundings, gone: bool): Causes
      reads this, receiver, receiver.forwardingReceiver, receiver.forwardingReceiver.channel, shutdown
    {
      Causes(receiver.StaysOpen(around.updatesEnded, around.decodeExpired), gone, around.updatesEnded,
        around.senderDone, StateAfter(around), watchesHandler && around.handlerDone)
    }

    ghost function StateAfter(around: Surroundings): Shutdowns.ShutdownState
      reads shutdown
    {
      Shutdowns.State(Shutdowns.Look(shutdown.Abstract(), around.signal, around.now))
    }

    ghost predicate Stops(around: Surroundings)
      reads this, shutdown
    {
      Shutdowns.State(Shutdowns.Look(shutdown.Abstract(), around.signal, around.now)) == Shutdowns.Shutdown
    }

    method PollReceiver(around: Surroundings) returns (lost: bool, ghost gone: bool, ghost k: nat)
      requires Valid()
      modifies this, receiver`requestsAllowed, receiver`forwarding, receiver`responding, receiver`senderHandle,
        receiver`stream, receiver`outbox, receiver`responses, receiver`inbox,
        receiver.forwardingReceiver, receiver.forwardingReceiver.channel,
        receiver.responseReceiver, receiver.responseReceiver.net
      ensures Valid() && Fades(old(State()), State())
      ensures receiver.MatcherPolled(old(receiver.World()), old(receiver.responses), Matches())
      ensures written == old(written) && hasSender == old(hasSender) && allowRequests == old(allowRequests)
      ensures PartsTurned(old(Shown()), Shown(), old(CausesOf(around, gone)).(senderDone := false))
      ensures old(hasReceiver) ==> receiver.Leaves(old(receiver.Read(around.updatesEnded, hasSender)), gone, k)
      ensures old(hasReceiver) ==>
        Pushed(Reordering.Ready(old(receiver.Read(around.updatesEnded, hasSender)).line), old(receiver.forwarding),
               old(receiver.forwardingReceiver.channel.open), old(receiver.forwardingReceiver.channel.room), gone, k)
      ensures !old(hasReceiver) ==> receiver.Taken() == old(receiver.Taken())
      ensures !old(Forwards()) ==> !gone && k == 0
      ensures gone ==> !Forwards()
      ensures old(NoneStranded()) && !gone ==> NoneStranded()
      ensures old(KeepsReading(around)) && !gone ==> hasReceiver && receiver.responding && receiver.stream
      ensures lost <==> old(hasReceiver && receiver.LosesAnswer(around.updatesEnded, hasSender))
    {
      hide Receiver.Leaves, Receiver.Read, Receiver.StaysOpen, Receiver.LosesAnswer, Receiver.MatcherPolled, CausesOf;
      hide PartsOk, OnlyOff, MatcherOk, Shutdowns.Coherent, Reordering.HasReady, Pending.Close;
      lost, gone, k := false, false, 0;
      if hasReceiver {
        ghost var s0 := State();
        var down;
        down, lost, gone, k := PollPresent(around);
        if down {
          ghost var s1 := State();
          Drop(old(receiver.World()), old(receiver.responses));
          FadesOn(s0, s1, State());
        }
      } else {
        IdleMatcher();
      }
    }

    lemma IdleMatcher()
      requires Valid() && !Matches()
      ensures receiver.MatcherPolled(receiver.World(), receiver.responses, false)
    {
      receiver.MatcherIdle();
    }

    /** The receiver is there and polled; it says whether it has nothing left to do. */
    method PollPresent(around: Surroundings) returns (down: bool, lost: bool, ghost gone: bool, ghost k: nat)
      requires Valid() && hasReceiver
      modifies receiver`requestsAllowed, receiver`forwarding, receiver`responding, receiver`senderHandle,
        receiver`stream, receiver`outbox, receiver`responses, receiver`inbox,
        receiver.forwardingReceiver, receiver.forwardingReceiver.channel,
        receiver.responseReceiver, receiver.responseReceiver.net
      ensures Valid() && Fades(old(State()), State())
      ensures receiver.MatcherPolled(old(receiver.World()), old(receiver.responses), Matches())
      ensures down <==> !Accepts() && !Matches() && !Forwards()
      ensures PartsTurned(old(Shown()), Shown().(receiver := !down), old(CausesOf(around, gone)).(senderDone := false))
      ensures receiver.Leaves(old(receiver.Read(around.updatesEnded, hasSender)), gone, k)
      ensures
        Pushed(Reordering.Ready(old(receiver.Read(around.updatesEnded, hasSender)).line), old(receiver.forwarding),
               old(receiver.forwardingReceiver.channel.open), old(receiver.forwardingReceiver.channel.room), gone, k)
      ensures !old(Forwards()) ==> !gone && k == 0
      ensures gone ==> !Forwards()
      ensures old(NoneStranded()) && !gone ==> NoneStranded()
      ensures old(KeepsReading(around)) && !gone ==> receiver.responding && receiver.stream
      ensures lost <==> old(receiver.LosesAnswer(around.updatesEnded, hasSender))
    {
      hide *;
      ghost var s0, p0 := State(), receiver.State();
      ghost var ready, c0 := Reordering.HasReady(receiver.Line()), CausesOf(around, false);
      IsPresent(around);
      var polled;
      polled, lost, gone, k := receiver.PollOnce(around.updatesEnded, around.decodeExpired, hasSender);
      StaysPresent(s0, p0);
      IsPresent(around);
      down := polled.Done?;
      TurnedBy(p0, receiver.State(), hasSender, allowRequests, ready, Reordering.HasReady(receiver.Line()),
               c0.(gone := gone));
    }

    /** What of the connection is the receiver's. */
    lemma IsPresent(around: Surroundings)
      requires Valid() && hasReceiver
      ensures receiver.Valid() && (receiver.requestsAllowed ==> hasSender) && SnapshotOk(State())
      ensures State() == Snapshot(Some(receiver.State()), hasSender, allowRequests, shutdown.Abstract())
      ensures Shown() == FaceOf(true, receiver.State(), hasSender, allowRequests, Reordering.HasReady(receiver.Line()))
      ensures Shown().accepts == Accepts() == receiver.State().allowed == receiver.requestsAllowed
      ensures Shown().matches == Matches() == receiver.State().responding == receiver.responding
      ensures Shown().forwards == Forwards() == receiver.State().forwarding == receiver.forwarding
      ensures NoneStranded() <==> receiver.NoneStranded()
      ensures KeepsReading(around) <==>
        receiver.responding && !around.updatesEnded && receiver.StaysOpen(around.updatesEnded, around.decodeExpired)
      ensures forall gone :: CausesOf(around, gone) == CausesOf(around, false).(gone := gone)
      ensures CausesOf(around, false).reading == receiver.StaysOpen(around.updatesEnded, around.decodeExpired)
      ensures CausesOf(around, false).updatesEnded == around.updatesEnded
      ensures FaceOf(!IsShutdown(receiver.State()), receiver.State(), hasSender, allowRequests,
        Reordering.HasReady(receiver.Line())) == Shown().(receiver := !IsShutdown(receiver.State()))
    {
    }

    lemma StaysPresent(s0: Snapshot, p0: Parts)
      requires hasReceiver && receiver.Valid() && SnapshotOk(s0) && OnlyOff(p0, receiver.State())
      requires s0 == Snapshot(Some(p0), hasSender, allowRequests, shutdown.Abstract())
      ensures Valid() && Fades(s0, State())
    {
    }

    /** A receiver that has nothing left to do goes. */
    method Drop(ghost w: Pending.World, ghost before: seq<Message>)
      requires Valid() && hasReceiver && !Accepts() && !Matches() && !Forwards()
      requires receiver.MatcherPolled(w, before, false)
      modifies `hasReceiver, receiver.responseReceiver, receiver.responseReceiver.net
      ensures Valid() && Fades(old(State()), State()) && receiver.MatcherPolled(w, before, false)
      ensures Shown() == old(Shown()).(receiver := false) && !hasReceiver
      ensures old(NoneStranded()) ==> NoneStranded()
    {
      hide Pending.Polled, Pending.Close, PartsOk, MatcherOk, Shutdowns.Coherent, Reordering.HasReady;
      ClosedForGood(w, receiver.responses[|before|..], false);
      ShutdownReceiver();
    }

    method PollRequestHandlerShutdown(around: Surroundings)
      requires Valid()
      modifies `hasSender
      ensures Valid() && hasSender == (old(hasSender) && !(!hasReceiver && watchesHandler && around.handlerDone))
    {
      if !hasReceiver {
        if watchesHandler && around.handlerDone {
          ShutdownSender();
        }
      }
    }

    /** Without a sender no requests are taken: they could not be answered. */
    method PollSender(around: Surroundings)
      requires Valid()
      modifies this, receiver`requestsAllowed, receiver`forwarding, receiver`responding, receiver`senderHandle,
        receiver`stream
      ensures Valid() && Fades(old(State()), State())
      ensures hasSender == (old(hasSender) && !around.senderDone) && allowRequests == old(allowRequests)
      ensures old(hasReceiver && receiver.responding && receiver.stream) ==>
        hasReceiver && receiver.responding && receiver.stream
      ensures Matches() == old(Matches())
      ensures SenderTurned(old(Shown()), Shown(), around.senderDone)
      ensures written == Registration.Wrote(old(written), if old(hasSender) then around.writes else 0,
                                            receiver.World().sent)
      ensures (old(NoneStranded()) ==> NoneStranded()) && (Forwards() ==> old(Forwards()))
    {
      if hasSender {
        written := Registration.Wrote(written, around.writes, receiver.World().sent);
        if around.senderDone {
          ShutdownRequestReceiver();
          ShutdownSender();
        }
      }
    }

    method ShutdownReceiver()
      requires Valid()
      modifies `hasReceiver, receiver.responseReceiver, receiver.responseReceiver.net
      ensures Valid() && !hasReceiver && receiver.World() == Pending.Close(old(receiver.World()))
    {
      if hasReceiver {
        receiver.responseReceiver.Close();
      }
      hasReceiver := false;
    }

    method ShutdownRequestReceiver()
      requires Valid()
      modifies this, receiver`requestsAllowed, receiver`forwarding, receiver`responding, receiver`senderHandle,
        receiver`stream
      ensures Valid() && Fades(old(State()), State())
      ensures !Accepts() && (Forwards() <==> old(Forwards()) && Reordering.HasReady(receiver.Line()))
      ensures hasReceiver <==> old(hasReceiver) && (Accepts() || Matches() || Forwards())
      ensures hasSender == old(hasSender) && allowRequests == old(allowRequests)
      ensures old(hasReceiver && receiver.responding && receiver.stream) ==>
        hasReceiver && receiver.responding && receiver.stream
      ensures Matches() == old(Matches()) && written == old(written)
      ensures (old(NoneStranded()) ==> NoneStranded()) && (Forwards() ==> old(Forwards()))
    {
      if hasReceiver {
        var down := receiver.ShutdownRequestReceiver();
        if down {
          hasReceiver := false;
        }
      }
    }

    method ShutdownSender()
      modifies `hasSender
      ensures !hasSender
    {
      hasSender := false;
    }

    /** The first half of a poll: receiver, sender, shutdown. */
    method PollParts(around: Surroundings) returns (lost: bool, ghost gone: bool, ghost k: nat)
      requires Valid()
      modifies this, receiver`requestsAllowed, receiver`forwarding, receiver`responding, receiver`senderHandle,
        receiver`stream, receiver`outbox, receiver`responses, receiver`inbox,
        receiver.forwardingReceiver, receiver.forwardingReceiver.channel, shutdown,
        receiver.responseReceiver, receiver.responseReceiver.net
      ensures Valid() && Fades(old(State()), State())
      ensures shutdown.Abstract() == Shutdowns.Look(old(shutdown.Abstract()), around.signal, around.now)
      ensures Shutdowns.State(shutdown.Abstract()) == old(StateAfter(around))
      ensures receiver.MatcherPolled(old(receiver.World()), old(receiver.responses), Matches())
      ensures written == Registration.Wrote(old(written), if old(hasSender) then around.writes else 0,
                                            old(receiver.World()).sent)
      ensures PartsTurned(old(Shown()), Shown(), old(CausesOf(around, gone)))
      ensures old(hasReceiver) ==> receiver.Leaves(old(receiver.Read(around.updatesEnded, hasSender)), gone, k)
      ensures old(hasReceiver) ==>
        Pushed(Reordering.Ready(old(receiver.Read(around.updatesEnded, hasSender)).line), old(receiver.forwarding),
               old(receiver.forwardingReceiver.channel.open), old(receiver.forwardingReceiver.channel.room), gone, k)
      ensures !old(hasReceiver) ==> receiver.Taken() == old(receiver.Taken())
      ensures !old(Forwards()) ==> !gone && k == 0
      ensures gone ==> !Forwards()
      ensures old(NoneStranded()) && !gone ==> NoneStranded()
      ensures old(KeepsReading(around)) && !gone ==> hasReceiver && receiver.responding && receiver.stream
      ensures lost <==> old(hasReceiver && receiver.LosesAnswer(around.updatesEnded, hasSender))
    {
      hide *;
      ghost var s0, f0 := State(), Shown();
      FaceIsOk();
      CausesAre(around);
      ShownAre();
      lost, gone, k := PollReceiver(around);
      ghost var s1, f1 := State(), Shown();
      receiver.MatcherIs(old(receiver.World()), old(receiver.responses), Matches());
      Registration.PolledKeepsSent(old(receiver.World()), receiver.responses[|old(receiver.responses)|..], Matches());
      PollSender(around);
      receiver.MatcherIs(old(receiver.World()), old(receiver.responses), Matches());
      PartsInTwo(f0, f1, Shown(), old(CausesOf(around, gone)));
      FadesOn(s0, s1, State());
      PollShutdown(around, s0);
    }

    /** The shutdown handler looks at the signal and the clock. */
    method PollShutdown(around: Surroundings, ghost s0: Snapshot)
      requires Valid() && Fades(s0, State())
      modifies shutdown
      ensures Valid() && Fades(s0, State())
      ensures shutdown.Abstract() == Shutdowns.Look(old(shutdown.Abstract()), around.signal, around.now)
      ensures Shutdowns.State(shutdown.Abstract()) == old(StateAfter(around))
    {
      hide PartsOk, OnlyOff, Fades, Shutdowns.Look, MatcherOk;
      ghost var s1 := State();
      var _ := shutdown.PollOnce(around.signal, around.now);
      LookFades(s1.watch, around.signal, around.now);
      assert State() == s1.(watch := State().watch);
      WatchFades(s1, State());
      FadesOn(s0, s1, State());
    }

    /** No requests are sent without someone to hear the responses or to write. */
    method KeepRunning(around: Surroundings)
      requires Valid()
      modifies `hasSender, `allowRequests
      ensures Valid() && Fades(old(State()), State())
      ensures hasSender == (old(hasSender) && !(!hasReceiver && watchesHandler && around.handlerDone))
      ensures allowRequests == (old(allowRequests) && Matches() && old(hasSender))
    {
      hide PartsOk, MatcherOk;
      var allowResponses := hasReceiver && receiver.responding;
      if !allowResponses || !hasSender {
        allowRequests := false;
      }
      PollRequestHandlerShutdown(around);
    }

    method ShutdownAll()
      requires Valid()
      modifies this, receiver.responseReceiver, receiver.responseReceiver.net
      ensures Valid() && Fades(old(State()), State())
      ensures !hasReceiver && !hasSender && !allowRequests && written == old(written)
      ensures receiver.World() == Pending.Close(old(receiver.World()))
    {
      hide Pending.Close, PartsOk;
      ShutdownReceiver();
      ShutdownSender();
      allowRequests := false;
    }

    /** The second half: what the shutdown state asks for. */
    method React(around: Surroundings, s: Shutdowns.ShutdownState, ghost c: Causes)
      requires Valid() && s == Shutdowns.State(shutdown.Abstract())
      requires c.state == s && c.handlerDone == (watchesHandler && around.handlerDone)
      modifies this, receiver`requestsAllowed, receiver`forwarding, receiver`responding, receiver`senderHandle,
        receiver`stream, receiver.responseReceiver, receiver.responseReceiver.net
      ensures Valid() && Fades(old(State()), State())
      ensures Reacted(old(Shown()), Shown(), c)
      ensures shutdown.Abstract() == old(shutdown.Abstract())
      ensures receiver.World() ==
        if s == Shutdowns.Shutdown then Pending.Close(old(receiver.World())) else old(receiver.World())
      ensures Matches() == (old(Matches()) && s != Shutdowns.Shutdown) && written == old(written)
      ensures s != Shutdowns.Shutdown && old(hasReceiver && receiver.responding && receiver.stream) ==>
        hasReceiver && receiver.responding && receiver.stream
      ensures (s != Shutdowns.Shutdown && old(NoneStranded()) ==> NoneStranded()) && (Forwards() ==> old(Forwards()))
    {
      hide NoneStranded, Pending.Close, PartsOk, IsShutdown, Shutdowns.Coherent, MatcherOk;
      match s
      case Running => KeepRunning(around);
      case ShuttingDown =>
        ShutdownRequestReceiver();
        allowRequests := false;
      case Shutdown => ShutdownAll();
    }

    /** One poll of everything. The answer to a bad request is lost exactly if the stream ends with one while
        responses are awaited and the sender is gone. */
    method PollOnce(around: Surroundings) returns (r: Poll, lost: bool, ghost gone: bool, ghost k: nat)
      requires Valid()
      modifies this, receiver`requestsAllowed, receiver`forwarding, receiver`responding, receiver`senderHandle,
        receiver`stream, receiver`outbox, receiver`responses, receiver`inbox,
        receiver.forwardingReceiver, receiver.forwardingReceiver.channel, shutdown,
        receiver.responseReceiver, receiver.responseReceiver.net
      ensures Valid() && Turned(old(State()), State(), r.Ready?)
      ensures receiver.MatcherPolled(old(receiver.World()), old(receiver.responses), Matches())
      ensures written == Registration.Wrote(old(written), if old(hasSender) then around.writes else 0,
                                            old(receiver.World()).sent)
      ensures Caused(old(Shown()), Shown(), old(CausesOf(around, gone)))
      ensures Shutdowns.State(shutdown.Abstract()) ==
        if hasReceiver || hasSender then old(StateAfter(around)) else Shutdowns.Shutdown
      ensures hasReceiver || hasSender ==>
        shutdown.Abstract() == Shutdowns.Look(old(shutdown.Abstract()), around.signal, around.now)
      ensures old(hasReceiver) ==> receiver.Leaves(old(receiver.Read(around.updatesEnded, hasSender)), gone, k)
      ensures old(hasReceiver) ==>
        Pushed(Reordering.Ready(old(receiver.Read(around.updatesEnded, hasSender)).line), old(receiver.forwarding),
               old(receiver.forwardingReceiver.channel.open), old(receiver.forwardingReceiver.channel.room), gone, k)
      ensures !old(hasReceiver) ==> receiver.Taken() == old(receiver.Taken())
      ensures !old(Forwards()) ==> !gone && k == 0
      ensures gone ==> !Forwards()
      ensures old(NoneStranded() && !Stops(around)) && !gone ==> NoneStranded()
      ensures old(KeepsReading(around) && !Stops(around)) && !gone ==>
        hasReceiver && receiver.responding && receiver.stream
      ensures lost <==> old(hasReceiver && receiver.LosesAnswer(around.updatesEnded, hasSender))
    {
      hide *;
      ghost var s0, f0 := State(), Shown();
      FaceIsOk();
      CausesAre(around);
      lost, gone, k := PollParts(around);
      ghost var s1, f1 := State(), Shown();
      ghost var c := old(CausesOf(around, gone));
      SoundWatch();
      var s := shutdown.CurrentState();
      receiver.MatcherIs(old(receiver.World()), old(receiver.responses), Matches());
      ClosedForGood(old(receiver.World()), receiver.responses[|old(receiver.responses)|..], Matches());
      React(around, s, c);
      receiver.MatcherIs(old(receiver.World()), old(receiver.responses), Matches());
      CausedInTwo(f0, f1, Shown(), c);
      ShownAre();
      FadesOn(s0, s1, State());
      r := Conclude(s0, s);
    }

    /** Ready if nothing is left; then the event is sent if it was not yet. */
    method Conclude(ghost s0: Snapshot, s: Shutdowns.ShutdownState) returns (r: Poll)
      requires Valid() && Fades(s0, State()) && s == Shutdowns.State(shutdown.Abstract())
      requires s != Shutdowns.Running ==> !allowRequests && !Accepts()
      requires allowRequests ==> hasSender && Matches()
      requires s == Shutdowns.Shutdown ==> !hasReceiver && !hasSender
      modifies shutdown
      ensures Valid() && Turned(s0, State(), r.Ready?)
      ensures Shutdowns.State(shutdown.Abstract()) == if hasReceiver || hasSender then s else Shutdowns.Shutdown
      ensures hasReceiver || hasSender ==> shutdown.Abstract() == old(shutdown.Abstract())
    {
      hide PartsOk, OnlyOff, Fades, MatcherOk;
      if s == Shutdowns.Shutdown {
        return Ready;
      }
      if !hasReceiver && !hasSender {
        ghost var s1 := State();
        shutdown.ForceShutdown();
        StopFades(s1.watch);
        WatchFades(s1, State());
        FadesOn(s0, s1, State());
        return Ready;
      }
      return Poll.NotReady;
    }
  }

  /** A connection that gets there: the sender is done, responses are still awaited, and then the stream
      brings a request that cannot be decoded. */
  method LoseAnswer(phrase: nat -> bytes, error: DecodeError) returns (lost: bool)
    ensures lost
  {
    hide Turned, PartsOk, Connection.MatcherOk, Receiver.MatcherPolled, Registration.Wrote;
    var connection := LoseSender(phrase);
    var receiver := connection.receiver;
    receiver.ending := Ending.Failed(DecodeFailed(RequestKind, error));
    var _, answerLost, _, _ := connection.PollOnce(QUIET);
    return answerLost;
  }

  const QUIET := Surroundings(false, false, false, false, 0, Shutdowns.Silent, 0)

  /** A new connection whose sender is done at the first poll. */
  method LoseSender(phrase: nat -> bytes) returns (connection: Connection)
    ensures fresh(connection) && fresh(connection.receiver) && fresh(connection.shutdown)
    ensures fresh(connection.receiver.responseReceiver) && fresh(connection.receiver.responseReceiver.net)
    ensures fresh(connection.receiver.forwardingReceiver) && fresh(connection.receiver.forwardingReceiver.channel)
    ensures connection.Valid() && connection.hasReceiver && !connection.hasSender
    ensures connection.receiver.responding && connection.receiver.stream
    ensures connection.receiver.inbox == [] && connection.receiver.Line() == Reordering.EMPTY_LINE
    ensures connection.receiver.forwardingReceiver.size == 10
  {
    hide Turned, Reordering.Forwarded, Reordering.Ready, PartsOk;
    connection := Start(phrase);
    var _, _, gone, k := connection.PollOnce(QUIET.(senderDone := true));
    NothingToForward(k);
  }

  method Start(phrase: nat -> bytes) returns (connection: Connection)
    ensures fresh(connection) && fresh(connection.receiver) && fresh(connection.shutdown)
    ensures fresh(connection.receiver.responseReceiver) && fresh(connection.receiver.responseReceiver.net)
    ensures fresh(connection.receiver.forwardingReceiver) && fresh(connection.receiver.forwardingReceiver.channel)
    ensures connection.Valid() && connection.State() == Snapshot(Some(ALL_ON), true, true, Shutdowns.START)
    ensures connection.receiver.Taken() == Intake(Reordering.EMPTY_LINE, [], [], [])
    ensures connection.receiver.ending == Open && connection.receiver.forwardingReceiver.size == 10
  {
    var channel := new Forwarding.HandlerChannel(10);
    var forwardingReceiver := new Forwarding.ForwardingReceiver(channel, 10);
    var net := new Matchers.Channels(0);
    var responseReceiver := new Matchers.ResponseReceiver(net);
    var receiver := new Receiver(phrase, forwardingReceiver, responseReceiver);
    var shutdown := new Shutdowns.ShutdownHandler();
    connection := new Connection(receiver, shutdown, true);
  }

  lemma NothingToForward(k: nat)
    ensures Reordering.Forwarded(Reordering.EMPTY_LINE, k) == Reordering.EMPTY_LINE
    ensures !Reordering.HasReady(Reordering.EMPTY_LINE)
  {
  }

  lemma WatchFades(s: Snapshot, s': Snapshot)
    requires s' == s.(watch := s'.watch)
    requires Shutdowns.Rank(Shutdowns.State(s.watch)) <= Shutdowns.Rank(Shutdowns.State(s'.watch))
    requires s.watch.sent <= s'.watch.sent
    ensures Fades(s, s')
  {
  }

  lemma FadesOn(s: Snapshot, s': Snapshot, s'': Snapshot)
    requires Fades(s, s') && Fades(s', s'')
    ensures Fades(s, s'')
  {
  }

  lemma LookFades(w: Shutdowns.Watch, signal: Shutdowns.Signal, now: nat)
    requires Shutdowns.Coherent(w)
    ensures var w' := Shutdowns.Look(w, signal, now);
      && Shutdowns.Rank(Shutdowns.State(w)) <= Shutdowns.Rank(Shutdowns.State(w'))
      && w.sent <= w'.sent
  {
  }

  lemma StopFades(w: Shutdowns.Watch)
    requires Shutdowns.Coherent(w)
    ensures var w' := Shutdowns.Stop(w);
      && Shutdowns.Rank(Shutdowns.State(w)) <= Shutdowns.Rank(Shutdowns.State(w'))
      && w.sent <= w'.sent
  {
  }
}
