/** The sender: a queue in front of a sink that may push back, with room for one message held back. */
module Senders {
  import opened Bytes
  import opened Syntax
  import opened Decoding
  import opened TypedHeaders

  datatype Poll = Ready | NotReady | Broken

  /** The first messages with their dates. */
  function Stamped(messages: seq<Message>, dates: seq<bytes>): seq<Message>
    requires |dates| <= |messages|
  {
    seq(|dates|, i requires 0 <= i < |dates| => WithDate(messages[i], dates[i]))
  }

  function Held(buffered: Option<Message>): seq<Message> {
    match buffered case Some(m) => [m] case None => []
  }

  /** What the sink took and then what is held back are the first messages submitted, each dated once;
      the queue is the rest, untouched. */
  predicate Fifo(submitted: seq<Message>, dates: seq<bytes>, taken: seq<Message>, queue: seq<Message>) {
    && |dates| <= |submitted|
    && taken == Stamped(submitted, dates)
    && queue == submitted[|dates|..]
  }

  lemma FifoSubmits(submitted: seq<Message>, dates: seq<bytes>, taken: seq<Message>, queue: seq<Message>, m: Message)
    requires Fifo(submitted, dates, taken, queue)
    ensures Fifo(submitted + [m], dates, taken, queue + [m])
  {
    assert (submitted + [m])[|dates|..] == submitted[|dates|..] + [m];
  }

  lemma FifoTakes(submitted: seq<Message>, dates: seq<bytes>, taken: seq<Message>, queue: seq<Message>, date: bytes)
    requires Fifo(submitted, dates, taken, queue) && queue != []
    ensures Fifo(submitted, dates + [date], taken + [WithDate(queue[0], date)], queue[1..])
  {
    assert Stamped(submitted, dates + [date]) == Stamped(submitted, dates) + [WithDate(submitted[|dates|], date)];
  }

  /** Nothing but the date of a message is changed. */
  ghost predicate OnlyDated(m: Message, m': Message) {
    && IsSameMessage(m, m')
    && forall name :: !SameName(DATE, name) ==> Values(m'.headers, name) == Values(m.headers, name)
  }

  /** The sequence numbers reach the sink as submitted, and each message carries one date. */
  lemma FifoKeepsNumbers(submitted: seq<Message>, dates: seq<bytes>, taken: seq<Message>, queue: seq<Message>)
    requires Fifo(submitted, dates, taken, queue)
    ensures forall i :: 0 <= i < |taken| ==>
      && CSeqOf(taken[i]) == CSeqOf(submitted[i]) && Values(taken[i].headers, DATE) == [dates[i]]
      && OnlyDated(submitted[i], taken[i])
  {
    hide CSeqOf, Insert, Values, IsSameMessage;
    forall i | 0 <= i < |taken|
      ensures CSeqOf(taken[i]) == CSeqOf(submitted[i]) && Values(taken[i].headers, DATE) == [dates[i]]
      ensures OnlyDated(submitted[i], taken[i])
    {
      DateKeepsCSeq(submitted[i], dates[i]);
    }
  }

  /** The sink of the connection. How much it takes, whether it has passed on what it took, and whether it is
      broken are up to the transport, between the calls. */
  class Sink {
    var room: nat
    var ok: bool
    var flushed: bool

    constructor (room: nat)
      ensures this.room == room && ok && !flushed
    {
      this.room, ok, flushed := room, true, false;
    }

    method StartSend() returns (r: Poll)
      modifies `room
      ensures r == if !ok then Broken else if old(room) == 0 then NotReady else Ready
      ensures room == if r.Ready? then old(room) - 1 else old(room)
    {
      if !ok {
        return Broken;
      }
      if room == 0 {
        return NotReady;
      }
      room := room - 1;
      return Ready;
    }

    /** Flushing, and closing at the end. */
    method PollComplete() returns (r: Poll)
      ensures r == if !ok then Broken else if flushed then Ready else NotReady
    {
      return if !ok then Broken else if flushed then Ready else NotReady;
    }
  }

  function Min(a: nat, b: nat): nat {
    if a <= b then a else b
  }

  class Sender {
    const sink: Sink
    var buffered: Option<Message>
    var queue: seq<Message>
    var handles: nat
    var alive: bool
    var broken: bool
    ghost var submitted: seq<Message>
    ghost var dates: seq<bytes>
    ghost var sunk: seq<Message>

    /** After an error of the sink one message may be missing at the end. */
    ghost predicate Valid()
      reads this
    {
      if broken then
        && |dates| <= |submitted| && queue == submitted[|dates|..]
        && sunk <= Stamped(submitted, dates)
      else Fifo(submitted, dates, sunk + Held(buffered), queue)
    }

    constructor (sink: Sink)
      ensures Valid() && !broken && alive && handles == 1 && submitted == [] && sunk == [] && this.sink == sink
    {
      this.sink := sink;
      buffered, queue, handles, alive, broken := None, [], 1, true, false;
      submitted, dates, sunk := [], [], [];
    }

    method CloneHandle()
      requires handles > 0
      modifies `handles
      ensures handles == old(handles) + 1
    {
      handles := handles + 1;
    }

    method DropHandle()
      requires handles > 0
      modifies `handles
      ensures handles == old(handles) - 1
    {
      handles := handles - 1;
    }

    /** The sender is dropped; its handles may live on. */
    method Drop()
      modifies `alive
      ensures !alive
    {
      alive := false;
    }

    /** A handle submits a message; that fails exactly if the sender is gone. */
    method TrySendMessage(message: Message) returns (ok: bool)
      requires Valid() && handles > 0
      modifies `queue, `submitted
      ensures Valid() && ok == alive
      ensures submitted == if ok then old(submitted) + [message] else old(submitted)
      ensures queue == if ok then old(queue) + [message] else old(queue)
    {
      if !alive {
        return false;
      }
      if !broken {
        FifoSubmits(submitted, dates, sunk + Held(buffered), queue, message);
      } else {
        assert (submitted + [message])[|dates|..] == submitted[|dates|..] + [message];
        assert Stamped(submitted + [message], dates) == Stamped(submitted, dates);
      }
      queue := queue + [message];
      submitted := submitted + [message];
      return true;
    }

    /** Hands a dated message to the sink. Nothing may be held back at this point. */
    method StartSend(message: Message) returns (r: Poll)
      requires buffered.None? && !broken && Fifo(submitted, dates, sunk + [message], queue)
      modifies `buffered, `sunk, `broken, sink`room
      ensures Valid() && old(sunk) <= sunk && (r.Broken? <==> broken)
      ensures r == if !sink.ok then Broken else if old(sink.room) == 0 then NotReady else Ready
      ensures sink.room == if r.Ready? then old(sink.room) - 1 else old(sink.room)
      ensures r.Ready? ==> buffered.None? && sunk == old(sunk) + [message]
      ensures r.NotReady? ==> buffered == Some(message) && sunk == old(sunk)
      ensures r.Broken? ==> sunk == old(sunk)
    {
      r := sink.StartSend();
      match r
      case Ready =>
        sunk := sunk + [message];
        assert sunk + Held(None) == sunk;
      case NotReady => buffered := Some(message);
      case Broken => broken := true;
    }

    method Now() returns (date: bytes)
    {
      date := *;
    }

    /** Moves the queue to the sink until one of them stops it. */
    method PollWrite() returns (r: Poll)
      requires Valid() && !broken && buffered.None?
      modifies `buffered, `queue, `broken, `dates, `sunk, sink`room
      ensures Valid() && old(sunk) <= sunk && (r.Broken? <==> broken)
      ensures r.Ready? ==> buffered.None? && queue == [] && handles == 0
      ensures sink.ok ==> |sunk| == |old(sunk)| + Min(|old(queue)|, old(sink.room))
      ensures sink.ok ==> (r.Ready? <==> handles == 0 && |old(queue)| <= old(sink.room)) && !r.Broken?
      ensures !sink.ok ==> r == if old(queue) != [] || handles > 0 then Broken else Ready
    {
      while queue != []
        invariant Valid() && !broken && buffered.None? && old(sunk) <= sunk
        invariant |queue| + |sunk| == |old(queue)| + |old(sunk)| && sink.room + |sunk| == old(sink.room) + |old(sunk)|
        invariant sink.ok == old(sink.ok) && (!sink.ok ==> queue == old(queue))
        decreases |queue|
      {
        var date := Now();
        var message := WithDate(queue[0], date);
        FifoTakes(submitted, dates, sunk + Held(None), queue, date);
        assert sunk + Held(None) == sunk;
        queue := queue[1..];
        dates := dates + [date];
        hide Fifo, WithDate, Stamped;
        var sent := StartSend(message);
        if sent != Ready {
          return sent;
        }
      }
      if handles > 0 {
        r := sink.PollComplete();
        if r.Broken? {
          Break();
        } else {
          r := NotReady;
        }
        return;
      }
      return Ready;
    }

    method Break()
      requires Valid() && !broken && buffered.None?
      modifies `broken
      ensures Valid() && broken
    {
      assert sunk + Held(None) == sunk;
      broken := true;
    }

    /** Ready once all handles are gone and every message submitted is with the sink. */
    method PollOnce() returns (r: Poll)
      requires Valid() && !broken
      modifies `buffered, `queue, `broken, `dates, `sunk, sink`room
      ensures Valid() && old(sunk) <= sunk && (r.Broken? <==> broken)
      ensures r.Broken? <==> !sink.ok
      ensures var left := |Held(old(buffered))| + |old(queue)|;
        sink.ok ==>
          && |sunk| == |old(sunk)| + Min(left, old(sink.room))
          && (r.Ready? <==> handles == 0 && left <= old(sink.room) && sink.flushed)
      ensures r.Ready? ==> handles == 0 && sunk == Stamped(submitted, dates) && |dates| == |submitted|
    {
      if buffered.Some? {
        var message := buffered.value;
        buffered := None;
        var sent := StartSend(message);
        if sent != Ready {
          return sent;
        }
      }
      r := PollWrite();
      if r != Ready {
        return;
      }
      assert sunk + Held(None) == sunk;
      var closed := sink.PollComplete();
      if closed.Broken? {
        Break();
      }
      return closed;
    }
  }
}
