/** The shutdown handler: it runs, shuts down gracefully, and is shut down, in that order, and tells so
    once. */
module Shutdowns {
  import opened Bytes

  datatype ShutdownType = Graceful(duration: nat) | Immediate

  datatype ShutdownState = Running | ShuttingDown | Shutdown

  /** What the other end of the shutdown channel has done. */
  datatype Signal = Silent | Asked(kind: ShutdownType) | HandleGone

  /** The three optional fields, and how often the event was sent. */
  datatype Watch = Watch(listening: bool, deadline: Option<nat>, event: bool, sent: nat)

  const START := Watch(true, None, true, 0)

  function State(w: Watch): ShutdownState {
    if w.listening then Running else if w.deadline.Some? then ShuttingDown else Shutdown
  }

  function Rank(s: ShutdownState): nat {
    match s case Running => 0 case ShuttingDown => 1 case Shutdown => 2
  }

  /** The event is still to be sent just until the shutdown is complete, and is sent once. */
  predicate Coherent(w: Watch) {
    && (w.listening ==> w.deadline.None?)
    && (w.event <==> State(w) != Shutdown)
    && w.sent == (if w.event then 0 else 1)
  }

  function Stop(w: Watch): Watch {
    Watch(false, None, false, if w.event then w.sent + 1 else w.sent)
  }

  /** One look at the signal and the clock. */
  function Look(w: Watch, signal: Signal, now: nat): Watch {
    match State(w)
    case Shutdown => w
    case ShuttingDown => if w.deadline.value <= now then Stop(w) else w
    case Running =>
      match signal
      case Silent => w
      case Asked(Graceful(d)) => if d == 0 then Stop(w) else w.(listening := false, deadline := Some(now + d))
      case _ => Stop(w)
  }

  predicate EndsAll(signal: Signal) {
    signal == HandleGone || signal == Asked(Immediate) || signal == Asked(Graceful(0))
  }

  /** What a look does, in each state and for each signal: nothing without a signal; a graceful shutdown begins
      with its deadline, or is over at once if it has no duration; an immediate one, or the loss of the handle,
      ends everything and sends the event, once; and then signals do not matter: the deadline does. */
  lemma LookExact(w: Watch, signal: Signal, now: nat)
    requires Coherent(w)
    ensures var w' := Look(w, signal, now);
      && (State(w) == Running && signal == Silent ==> w' == w)
      && (State(w) == Running && EndsAll(signal) ==> State(w') == Shutdown && w'.sent == 1)
      && (forall d :: State(w) == Running && signal == Asked(Graceful(d)) && d > 0 ==>
            State(w') == ShuttingDown && w'.deadline == Some(now + d) && w'.sent == 0)
      && (State(w) == ShuttingDown && now < w.deadline.value ==> w' == w)
      && (State(w) == ShuttingDown && w.deadline.value <= now ==> State(w') == Shutdown && w'.sent == 1)
      && (State(w) == Shutdown ==> w' == w)
  {
  }

  datatype Act = Observe(signal: Signal, now: nat) | Force

  function Do(w: Watch, act: Act): Watch {
    match act
    case Observe(signal, now) => Look(w, signal, now)
    case Force => Stop(w)
  }

  function RunOf(w: Watch, acts: seq<Act>): Watch
    decreases |acts|
  {
    if acts == [] then w else RunOf(Do(w, acts[0]), acts[1..])
  }

  /** Over any run the state only moves on, and the event has been sent once just when the last state
      is reached. */
  lemma {:induction false} MovesOn(w: Watch, acts: seq<Act>)
    requires Coherent(w)
    ensures var w' := RunOf(w, acts);
      && Coherent(w')
      && Rank(State(w)) <= Rank(State(w'))
      && (w'.sent == 1 <==> State(w') == Shutdown)
      && (State(w) == Shutdown ==> w' == w)
      && (State(w) == State(w') == ShuttingDown ==> w'.deadline == w.deadline)
    decreases |acts|
  {
    if acts != [] {
      MovesOn(Do(w, acts[0]), acts[1..]);
    }
  }

  /** After any run: what is asked for while running happens at the next look. */
  lemma EndsAtOnce(acts: seq<Act>, signal: Signal, now: nat)
    requires State(RunOf(START, acts)) == Running
    ensures var w := RunOf(START, acts + [Observe(signal, now)]);
      match signal
      case Silent => State(w) == Running && w.sent == 0
      case HandleGone => State(w) == Shutdown && w.sent == 1
      case Asked(Immediate) => State(w) == Shutdown && w.sent == 1
      case Asked(Graceful(d)) =>
        if d == 0 then State(w) == Shutdown && w.sent == 1
        else State(w) == ShuttingDown && w.deadline == Some(now + d) && w.sent == 0
  {
    MovesOn(START, acts);
    RunAppends(START, acts, [Observe(signal, now)]);
    LookExact(RunOf(START, acts), signal, now);
    var last := [Observe(signal, now)];
    assert last[1..] == [];
    assert RunOf(RunOf(START, acts), last) == RunOf(Do(RunOf(START, acts), last[0]), []);
  }

  lemma {:induction false} DropAnnounces(acts: seq<Act>)
    ensures var w := Stop(RunOf(START, acts)); State(w) == Shutdown && w.sent == 1
  {
    MovesOn(START, acts);
  }

  /** Nothing but looks at the clock before the time. */
  predicate LooksBefore(acts: seq<Act>, time: nat) {
    forall i :: 0 <= i < |acts| ==> acts[i].Observe? && acts[i].now < time
  }

  lemma {:induction false} WaitsUntil(w: Watch, acts: seq<Act>)
    requires State(w) == ShuttingDown && LooksBefore(acts, w.deadline.value)
    ensures RunOf(w, acts) == w
    decreases |acts|
  {
    if acts != [] {
      assert acts[0].Observe? && acts[0].now < w.deadline.value;
      WaitsUntil(w, acts[1..]);
    }
  }

  lemma {:induction false} RunAppends(w: Watch, a: seq<Act>, b: seq<Act>)
    ensures RunOf(w, a + b) == RunOf(RunOf(w, a), b)
    decreases |a|
  {
    if a == [] {
      assert a + b == b;
    } else {
      assert (a + b)[1..] == a[1..] + b;
      RunAppends(Do(w, a[0]), a[1..], b);
    }
  }

  /** A graceful shutdown lasts its whole duration, whatever is signalled meanwhile, and is over at the
      first look at the clock after it. */
  lemma GracefulLasts(start: nat, duration: nat, acts: seq<Act>, signal: Signal, now: nat)
    requires duration > 0 && LooksBefore(acts, start + duration) && start + duration <= now
    ensures var asked := [Observe(Asked(Graceful(duration)), start)];
      && State(RunOf(START, asked + acts)) == ShuttingDown
      && State(RunOf(START, asked + acts + [Observe(signal, now)])) == Shutdown
  {
    var asked := [Observe(Asked(Graceful(duration)), start)];
    var w := Watch(false, Some(start + duration), true, 0);
    assert asked[1..] == [];
    assert RunOf(START, asked) == RunOf(Do(START, asked[0]), []) == w;
    WaitsUntil(w, acts);
    RunAppends(START, asked, acts);
    var last := [Observe(signal, now)];
    RunAppends(START, asked + acts, last);
    assert last[1..] == [];
    assert RunOf(w, last) == RunOf(Do(w, last[0]), []) == Stop(w);
  }

  datatype Poll = Ready | NotReady

  class ShutdownHandler {
    var listening: bool
    var deadline: Option<nat>
    var event: bool
    ghost var sent: nat

    ghost function Abstract(): Watch
      reads this
    {
      Watch(listening, deadline, event, sent)
    }

    ghost predicate Valid()
      reads this
    {
      Coherent(Abstract())
    }

    constructor ()
      ensures Valid() && Abstract() == START
    {
      listening, deadline, event, sent := true, None, true, 0;
    }

    method CurrentState() returns (s: ShutdownState)
      requires Valid()
      ensures s == State(Abstract())
    {
      if listening {
        return Running;
      } else if deadline.Some? {
        return ShuttingDown;
      } else {
        assert !event;
        return Shutdown;
      }
    }

    method HandleShutdown(kind: ShutdownType, now: nat)
      requires Valid() && (kind.Graceful? ==> State(Abstract()) != Shutdown)
      modifies this
      ensures Valid()
      ensures Abstract() ==
        if kind.Graceful? then old(Abstract()).(listening := false, deadline := Some(now + kind.duration))
        else Stop(old(Abstract()))
    {
      match kind
      case Graceful(duration) =>
        listening := false;
        deadline := Some(now + duration);
      case Immediate =>
        listening := false;
        deadline := None;
        if event {
          event := false;
          sent := sent + 1;
        }
    }

    method ForceShutdown()
      requires Valid()
      modifies this
      ensures Valid() && Abstract() == Stop(old(Abstract())) && State(Abstract()) == Shutdown
    {
      HandleShutdown(Immediate, 0);
    }

    method PollRunning(signal: Signal, now: nat) returns (r: Poll)
      requires Valid() && State(Abstract()) == Running
      modifies this
      ensures Valid() && Look(Abstract(), signal, now) == Look(old(Abstract()), signal, now)
      ensures r.NotReady? ==> signal == Silent && Abstract() == old(Abstract())
      ensures r.Ready? ==> State(Abstract()) != Running
    {
      match signal
      case Asked(kind) =>
        HandleShutdown(kind, now);
        return Ready;
      case HandleGone =>
        HandleShutdown(Immediate, now);
        return Ready;
      case Silent => return NotReady;
    }

    method PollShuttingDown(now: nat) returns (r: Poll)
      requires Valid() && State(Abstract()) == ShuttingDown
      modifies this
      ensures Valid() && Abstract() == Look(old(Abstract()), Silent, now)
      ensures r.Ready? <==> State(Abstract()) == Shutdown
    {
      if deadline.value <= now {
        HandleShutdown(Immediate, now);
        return Ready;
      }
      return NotReady;
    }

    /** The state machine runs until it has nothing to do; every turn moves the state on. */
    method PollOnce(signal: Signal, now: nat) returns (r: Poll)
      requires Valid()
      modifies this
      ensures Valid() && Abstract() == Look(old(Abstract()), signal, now)
      ensures r.Ready? <==> State(Abstract()) == Shutdown
    {
      while true
        invariant Valid() && Look(Abstract(), signal, now) == Look(old(Abstract()), signal, now)
        decreases 2 - Rank(State(Abstract()))
      {
        var s := CurrentState();
        match s {
          case Running =>
            var polled := PollRunning(signal, now);
            if polled.NotReady? {
              return NotReady;
            }
          case ShuttingDown =>
            var polled := PollShuttingDown(now);
            if polled.NotReady? {
              return NotReady;
            }
          case Shutdown => return Ready;
        }
      }
    }
  }
}
