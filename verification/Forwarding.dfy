/** The forwarding receiver as an object: it takes requests in any order and feeds the handler's
    bounded channel in the order of their sequence numbers. */
module Forwarding {
  import opened Bytes
  import opened Decoding
  import opened CSeqs
  import opened TypedHeaders
  import opened Reordering

  datatype Poll = Done | NotReady | Broken

  /** The sending end of the handler's channel. How much room there is and whether the handler is still there
      is up to the other end, between the calls. */
  class HandlerChannel {
    var room: nat
    var open: bool
    ghost var sent: seq<(cseq, Message)>

    constructor (room: nat)
      ensures sent == [] && this.room == room && open
    {
      this.room, open, sent := room, true, [];
    }

    method StartSend(c: cseq, request: Message) returns (r: Poll)
      modifies this
      ensures r == if !open then Broken else if old(room) == 0 then NotReady else Done
      ensures sent == if r.Done? then old(sent) + [(c, request)] else old(sent)
      ensures open == old(open) && room == if r.Done? then old(room) - 1 else old(room)
    {
      if !open {
        return Broken;
      }
      if room == 0 {
        return NotReady;
      }
      sent := sent + [(c, request)];
      room := room - 1;
      return Done;
    }
  }

  function Min(a: nat, b: nat): nat {
    if a <= b then a else b
  }

  class ForwardingReceiver {
    const channel: HandlerChannel
    const size: nat
    var buffered: map<cseq, Message>
    var next: Option<cseq>
    ghost var accepted: seq<Message>

    ghost function State(): Line
      reads this, channel
    {
      Line(buffered, next, channel.sent, accepted)
    }

    constructor (channel: HandlerChannel, size: nat)
      requires channel.sent == []
      ensures this.channel == channel && this.size == size
      ensures State() == EMPTY_LINE
    {
      this.channel := channel;
      this.size := size;
      buffered := map[];
      next := None;
      accepted := [];
    }

    method HasRequestsReady() returns (ready: bool)
      ensures ready == HasReady(State())
    {
      match next
      case Some(c) => return c in buffered;
      case None => return false;
    }

    method IsFull() returns (full: bool)
      ensures full == Reordering.IsFull(size, State())
    {
      return |buffered| >= size;
    }

    method IncomingOrDefault(c: cseq) returns (n: cseq)
      modifies `next
      ensures n == (if old(next).Some? then old(next).value else c)
      ensures next == Some(n)
    {
      if next.None? {
        next := Some(c);
      }
      return next.value;
    }

    method HandleRequest(request: Message) returns (refusal: Option<Refusal>)
      modifies this
      ensures Receipt(State(), refusal) == Receive(size, old(State()), request)
    {
      match CSeqOf(request)
      case Some(c) =>
        var n := IncomingOrDefault(c);
        if Sub(c, n) > Window(size) {
          return Some(TooFar);
        }
        if c in buffered {
          return Some(BadRequest);
        }
        buffered := buffered[c := request];
        accepted := accepted + [request];
        return None;
      case None => return Some(BadRequest);
    }

    /** Forwards until the gap, until the channel is full, or until the handler is found gone; in the
        last case the request in hand is lost and the expected number is not stored. */
    method Poll() returns (r: Poll, ghost k: nat)
      modifies this, channel
      ensures k <= Ready(old(State())) && (k == Ready(old(State())) <==> r.Done?)
      ensures k == if channel.open then Min(Ready(old(State())), old(channel.room)) else 0
      ensures r.Broken? <==> !channel.open && Ready(old(State())) > 0
      ensures channel.open == old(channel.open) && channel.room == old(channel.room) - k
      ensures !r.Broken? ==> State() == Forwarded(old(State()), k)
      ensures r.Broken? ==> var l := Forwarded(old(State()), k);
        && HasReady(l)
        && State() == l.(buffered := l.buffered - {l.next.value}, next := old(next))
    {
      hide Forwarded, Contiguous, Reordering.Ready;
      ghost var start := State();
      k := 0;
      RunStarts(start);
      if next.Some? {
        var n := next.value;
        while n in buffered
          invariant next == start.next && accepted == start.accepted
          invariant k <= Ready(start) && channel.open == old(channel.open) && channel.room + k == old(channel.room)
          invariant !channel.open ==> k == 0
          invariant Line(buffered, Some(n), channel.sent, accepted) == Forwarded(start, k)
          decreases Ready(start) - k
        {
          ghost var line := Forwarded(start, k);
          RunEnds(start, k);
          ForwardedNext(start, k);
          var request := buffered[n];
          buffered := buffered - {n};
          var pushed := channel.StartSend(n, request);
          match pushed {
            case Done =>
              n := Increment(n);
              k := k + 1;
            case NotReady =>
              buffered := buffered[n := request];
              assert buffered == line.buffered;
              next := Some(n);
              return NotReady, k;
            case Broken => return Broken, k;
          }
        }
        RunEnds(start, k);
        next := Some(n);
      }
      return Done, k;
    }
  }

  lemma RunStarts(l: Line)
    ensures Forwarded(l, 0) == l
    ensures l.next.None? ==> Ready(l) == 0
  {
  }

  /** After `k` forwards something is ready just when the run is longer. */
  lemma RunEnds(l: Line, k: nat)
    requires k <= Ready(l)
    ensures HasReady(Forwarded(l, k)) <==> k < Ready(l)
  {
    if k < Ready(l) {
      ForwardedNext(l, k);
    } else {
      ForwardedAll(l, k);
    }
  }
}
