/** The receiver: which of its parts are running, what it takes from the stream, and how its parts are
    shut down one after the other. */
module Receiving {
  import opened Bytes
  import opened Decoding
  import opened CSeqs
  import opened Statuses
  import opened Syntax
  import Wires
  import opened Reordering
  import Forwarding
  import Matchers
  import Pending

  // ---------------------------------------------------------------- the parts

  /** Which of the optional fields are there. */
  datatype Parts = Parts(allowed: bool, forwarding: bool, responding: bool, handle: bool, stream: bool)

  const ALL_ON := Parts(true, true, true, true, true)
  const ALL_OFF := Parts(false, false, false, false, false)

  /** Requests need the forwarding receiver; the handle is kept just while something is received. */
  predicate PartsOk(p: Parts) {
    && (p.allowed ==> p.forwarding)
    && (p.handle <==> p.allowed || p.responding)
    && (p.stream ==> p.handle)
  }

  predicate OnlyOff(p: Parts, p': Parts) {
    && (p'.allowed ==> p.allowed)
    && (p'.forwarding ==> p.forwarding)
    && (p'.responding ==> p.responding)
    && (p'.handle ==> p.handle)
    && (p'.stream ==> p.stream)
  }

  /** Why a part goes off in a poll: reading ends, the handler is gone, the updates end, or nothing is accepted
      any more and nothing is ready. */
  predicate GoOff(p: Parts, p': Parts, reading: bool, gone: bool, updatesEnded: bool, ready: bool) {
    && (p'.allowed <==> p.allowed && reading && !gone)
    && (p'.responding <==> p.responding && reading && !updatesEnded)
    && (p'.forwarding <==> p.forwarding && !gone && (p'.allowed || ready))
  }

  /** No more receiving, and nothing to forward. */
  predicate IsShutdown(p: Parts) {
    !p.allowed && !p.responding && !p.forwarding
  }

  // ---------------------------------------------------------------- what is taken from the stream

  datatype Intake = Intake(line: Line, outbox: seq<Message>, responses: seq<Message>, inbox: seq<Message>)

  function Refuse(phrase: nat -> bytes, refusal: Refusal): Message {
    Plain(phrase, match refusal case BadRequest => BAD_REQUEST case TooFar => FORBIDDEN)
  }

  function TakeOne(phrase: nat -> bytes, size: nat, p: Parts, t: Intake): Intake
    requires t.inbox != []
  {
    var m, t' := t.inbox[0], t.(inbox := t.inbox[1..]);
    if m.Response? then
      if p.responding then t'.(responses := t.responses + [m]) else t'
    else if !p.allowed then t'
    else
      var r := Receive(size, t.line, m);
      t'.(line := r.line,
          outbox := t.outbox + if r.refusal.Some? then [Refuse(phrase, r.refusal.value)] else [])
  }

  /** The refusals are told apart by their status. */
  lemma RefuseExact(phrase: nat -> bytes, refusal: Refusal)
    ensures var m := Refuse(phrase, refusal);
      && m.Response? && m.headers == [] && m.body == [] && m.reason == phrase(m.status)
      && m.status == (if refusal == TooFar then 403 else 400)
  {
  }

  /** Messages are taken in order until there are none or the buffer is full. */
  function TakeAll(phrase: nat -> bytes, size: nat, p: Parts, t: Intake): Intake
    decreases |t.inbox|
  {
    if t.inbox == [] || (p.forwarding && IsFull(size, t.line)) then t
    else TakeAll(phrase, size, p, TakeOne(phrase, size, p, t))
  }

  /** The requests among the messages, as arrivals. */
  function Arrivals(ms: seq<Message>): seq<Event> {
    if ms == [] then []
    else (if ms[0].Request? then [Arrive(ms[0])] else []) + Arrivals(ms[1..])
  }

  lemma OneSeen(phrase: nat -> bytes, size: nat, p: Parts, t: Intake)
    requires t.inbox != [] && (p.allowed ==> !IsFull(size, t.line))
    ensures TakeOne(phrase, size, p, t).inbox == t.inbox[1..]
    ensures TakeOne(phrase, size, p, t).line ==
      if p.allowed && t.inbox[0].Request? then Reordering.Step(size, t.line, Arrive(t.inbox[0])) else t.line
  {
    hide Receive;
  }

  lemma ArrivalsRun(size: nat, l: Line, m: Message, later: seq<Message>)
    ensures RunFrom(size, l, Arrivals([m] + later)) ==
      RunFrom(size, if m.Request? then Reordering.Step(size, l, Arrive(m)) else l, Arrivals(later))
  {
    hide Reordering.Step;
    assert ([m] + later)[1..] == later;
    if m.Request? {
      assert ([Arrive(m)] + Arrivals(later))[1..] == Arrivals(later);
    } else {
      assert [] + Arrivals(later) == Arrivals(later);
    }
  }

  /** What messages do to the reorder buffer: nothing while requests are not allowed. */
  function Seen(p: Parts, ms: seq<Message>): seq<Event> {
    if p.allowed then Arrivals(ms) else []
  }

  /** The responses among the messages. */
  function OnlyResponses(ms: seq<Message>): seq<Message> {
    if ms == [] then [] else (if ms[0].Response? then [ms[0]] else []) + OnlyResponses(ms[1..])
  }

  /** The answers to those requests among the messages that the reorder buffer refuses. */
  function Refusals(phrase: nat -> bytes, size: nat, l: Line, ms: seq<Message>): seq<Message>
    decreases |ms|
  {
    if ms == [] then []
    else if ms[0].Response? then Refusals(phrase, size, l, ms[1..])
    else
      var r := Receive(size, l, ms[0]);
      (if r.refusal.Some? then [Refuse(phrase, r.refusal.value)] else []) + Refusals(phrase, size, r.line, ms[1..])
  }

  /** What else the messages do: responses are kept in their order if they are received, refused requests are
      answered, and all are taken unless the buffer is full. */
  ghost predicate Gives(phrase: nat -> bytes, size: nat, p: Parts, t: Intake, taken: seq<Message>, t': Intake) {
    && t'.responses == t.responses + (if p.responding then OnlyResponses(taken) else [])
    && t'.outbox == t.outbox + (if p.allowed then Refusals(phrase, size, t.line, taken) else [])
    && (t'.inbox == [] || (p.forwarding && IsFull(size, t'.line)))
  }

  lemma OneGiven(phrase: nat -> bytes, size: nat, p: Parts, t: Intake, later: seq<Message>, t': Intake)
    requires t.inbox != [] && Gives(phrase, size, p, TakeOne(phrase, size, p, t), later, t')
    ensures Gives(phrase, size, p, t, [t.inbox[0]] + later, t')
  {
    hide Receive, Refuse;
    var ms := [t.inbox[0]] + later;
    assert ms[1..] == later;
    var one := TakeOne(phrase, size, p, t);
    var rest := OnlyResponses(later);
    assert t.responses + ([t.inbox[0]] + rest) == t.responses + [t.inbox[0]] + rest;
    assert t.responses + ([] + rest) == t.responses + rest;
    var refused := Refusals(phrase, size, one.line, later);
    var r := Receive(size, t.line, t.inbox[0]);
    assert r.refusal.Some? ==> var f := [Refuse(phrase, r.refusal.value)];
      t.outbox + f + refused == t.outbox + (f + refused);
    assert t.outbox + [] + refused == t.outbox + ([] + refused);
  }

  /** What is taken is a prefix of the stream, and those of its requests that are allowed drive the
      reorder buffer. */
  lemma {:induction false} IntakeIsRun(phrase: nat -> bytes, size: nat, p: Parts, t: Intake)
    returns (taken: seq<Message>)
    requires p.allowed ==> p.forwarding
    ensures var t' := TakeAll(phrase, size, p, t);
      && t.inbox == taken + t'.inbox && t'.line == RunFrom(size, t.line, Seen(p, taken))
      && Gives(phrase, size, p, t, taken, t')
    decreases |t.inbox|
  {
    hide TakeOne, Reordering.Step, RunFrom, Receive, Gives, IsFull;
    if t.inbox == [] || (p.forwarding && IsFull(size, t.line)) {
      taken := [];
      NothingRuns(size, t.line);
      NothingGiven(phrase, size, p, t);
    } else {
      var next := TakeOne(phrase, size, p, t);
      OneSeen(phrase, size, p, t);
      var later := IntakeIsRun(phrase, size, p, next);
      OneGiven(phrase, size, p, t, later, TakeAll(phrase, size, p, t));
      ArrivalsRun(size, t.line, t.inbox[0], later);
      taken := [t.inbox[0]] + later;
      assert t.inbox == [t.inbox[0]] + next.inbox;
    }
  }

  lemma NothingGiven(phrase: nat -> bytes, size: nat, p: Parts, t: Intake)
    requires t.inbox == [] || (p.forwarding && IsFull(size, t.line))
    ensures Gives(phrase, size, p, t, [], t)
  {
  }

  lemma NothingRuns(size: nat, l: Line)
    ensures RunFrom(size, l, []) == l && Arrivals([]) == []
  {
  }

  lemma SeenIfAllowed(p: Parts, p': Parts, ms: seq<Message>)
    requires p.allowed == p'.allowed
    ensures Seen(p, ms) == Seen(p', ms) && Seen(p, []) == [] && (!p.allowed ==> Seen(p, ms) == [])
  {
  }

  /** A stalled buffer takes nothing at all: responses behind it wait too, and nothing is forwarded. */
  lemma StalledTakesNothing(phrase: nat -> bytes, size: nat, p: Parts, t: Intake)
    requires p.forwarding && Stalled(size, t.line)
    ensures TakeAll(phrase, size, p, t) == t && Ready(t.line) == 0
  {
  }

  // ---------------------------------------------------------------- how the stream ends

  /** What can go wrong with the stream. */
  datatype ProtocolError = DecodeFailed(kind: Kind, error: DecodeError) | IoFailed

  /** The peer is told of a request that could not be decoded, and of nothing else. */
  function AnswerTo(error: ProtocolError): Option<nat> {
    match error
    case DecodeFailed(RequestKind, UnsupportedVersion) => Some(VERSION_NOT_SUPPORTED)
    case DecodeFailed(RequestKind, BodyTooLong) => Some(BODY_TOO_LARGE)
    case DecodeFailed(RequestKind, UriTooLong) => Some(URI_TOO_LONG)
    case DecodeFailed(RequestKind, _) => Some(BAD_REQUEST)
    case _ => None
  }

  /** What the peer is told, by the bytes of its request: 413 if, behind a legible beginning, the headers end
      with a declared length over the limit, 414 if the URI goes on beyond its limit, 505 if the version is 1.0,
      and 400 for anything else that cannot be read. */
  lemma ToldByBytes(cfg: Config, n: nat, buf: bytes)
    ensures var r := Decode(cfg, Fresh(RequestKind).(contentLength := n), buf);
      r.outcome.Error? ==>
        var a := AnswerTo(DecodeFailed(RequestKind, r.outcome.error));
        && a.Some? && a.value in {400, 413, 414, 505}
        && (a.value == 413 <==> exists k: nat, d, p ::
              Wires.Brings(cfg, RequestKind, n, buf, k, d, p) && DeclaresTooMuch(cfg, d, buf[k..]))
        && (a.value == 414 <==> exists k: nat, d, p ::
              Wires.Brings(cfg, RequestKind, n, buf, k, d, p) && HasLongUri(cfg, d, buf[k..]))
        && (a.value == 505 <==> exists k: nat, d, p ::
              Wires.Brings(cfg, RequestKind, n, buf, k, d, p) && HasOldVersion(d, buf[k..]))
  {
    hide Decode, Wires.Brings, Wires.Declares, Wires.WordIsTooLong;
    var r := Decode(cfg, Fresh(RequestKind).(contentLength := n), buf);
    Wires.ErrorExact(cfg, RequestKind, n, buf, BodyTooLong);
    Wires.ErrorExact(cfg, RequestKind, n, buf, UriTooLong);
    Wires.ErrorExact(cfg, RequestKind, n, buf, UnsupportedVersion);
    forall k: nat, d, p | Wires.Brings(cfg, RequestKind, n, buf, k, d, p)
      ensures k <= |buf| && d.kind == RequestKind
      ensures Wires.Offends(cfg, d, buf[k..], BodyTooLong) <==> DeclaresTooMuch(cfg, d, buf[k..])
      ensures Wires.Offends(cfg, d, buf[k..], UriTooLong) <==> HasLongUri(cfg, d, buf[k..])
      ensures Wires.Offends(cfg, d, buf[k..], UnsupportedVersion) <==> HasOldVersion(d, buf[k..])
    {
      BroughtKind(cfg, n, buf, k, d, p);
      OffendsExact(cfg, d, buf[k..]);
    }
    hide Wires.Offends, DeclaresTooMuch, HasLongUri, HasOldVersion;
  }

  lemma BroughtKind(cfg: Config, n: nat, buf: bytes, k: nat, d: Dec, p: Wires.Pieces)
    requires Wires.Brings(cfg, RequestKind, n, buf, k, d, p)
    ensures k <= |buf| && d.kind == RequestKind
  {
  }

  ghost predicate DeclaresTooMuch(cfg: Config, d: Dec, rest: bytes) {
    && d.phase == AtHeader && StartsWith(rest, CRLF)
    && exists l: nat :: Wires.Declares(d.builder.headers, l) && l > cfg.bodyMax
  }

  predicate HasLongUri(cfg: Config, d: Dec, rest: bytes) {
    d.phase == AtUri && Wires.WordIsTooLong(rest, SP, cfg.uriMax)
  }

  /** The protocol's name in any case, and then 1.0. */
  predicate HasOldVersion(d: Dec, rest: bytes) {
    && d.phase == AtVersion && |rest| >= 10 && rest[8..10] == CRLF
    && Upper(rest[..5]) == RTSP_SLASH && rest[5..8] == [49, 46, 48]
  }

  lemma OffendsExact(cfg: Config, d: Dec, rest: bytes)
    requires d.kind == RequestKind
    ensures Wires.Offends(cfg, d, rest, BodyTooLong) <==> DeclaresTooMuch(cfg, d, rest)
    ensures Wires.Offends(cfg, d, rest, UriTooLong) <==> HasLongUri(cfg, d, rest)
    ensures Wires.Offends(cfg, d, rest, UnsupportedVersion) <==> HasOldVersion(d, rest)
  {
    hide Wires.Declares, Wires.WordIsTooLong, Wires.WordEnds, Wires.ValueEnds, Wires.ValueIsTooLong;
    if |rest| >= 10 {
      assert rest[..8][..5] == rest[..5];
      assert rest[5..8] == [rest[5], rest[6], rest[7]];
    }
  }

  /** How the stream goes on when the messages at hand are used up. */
  datatype Ending = Open | Ended | Failed(error: ProtocolError)

  predicate IsAnswered(ending: Ending) {
    ending.Failed? && AnswerTo(ending.error).Some?
  }

  /** The messages are used up, and nothing keeps the receiver from asking for more. */
  predicate AsksForMore(size: nat, p: Parts, t: Intake) {
    t.inbox == [] && !(p.forwarding && IsFull(size, t.line))
  }

  /** The stream from here on, to the answer that a bad end is given. */
  function ReadOn(phrase: nat -> bytes, size: nat, p: Parts, ending: Ending, senderAlive: bool, t: Intake): Intake {
    var t' := TakeAll(phrase, size, p, t);
    if AsksForMore(size, p, t') && IsAnswered(ending) && senderAlive then
      t'.(outbox := t'.outbox + [Plain(phrase, AnswerTo(ending.error).value)])
    else t'
  }

  // ---------------------------------------------------------------- the receiver

  datatype Poll = Done | NotReady

  class Receiver {
    const phrase: nat -> bytes
    const forwardingReceiver: Forwarding.ForwardingReceiver
    const responseReceiver: Matchers.ResponseReceiver
    var requestsAllowed: bool
    var forwarding: bool
    var responding: bool
    var senderHandle: bool
    var stream: bool
    var inbox: seq<Message>
    var ending: Ending
    var outbox: seq<Message>
    ghost var responses: seq<Message>

    ghost function State(): Parts
      reads this
    {
      Parts(requestsAllowed, forwarding, responding, senderHandle, stream)
    }

    /** The response receiver is kept just while responses are received. */
    ghost predicate Valid()
      reads this, responseReceiver, responseReceiver.net
    {
      PartsOk(State()) && MatcherOk()
    }

    ghost predicate MatcherOk()
      reads `responding, responseReceiver, responseReceiver.net
    {
      responseReceiver.Valid() && (responding <==> responseReceiver.net.alive)
    }

    ghost function World(): Pending.World
      reads responseReceiver, responseReceiver.net
    {
      responseReceiver.State()
    }

    /** The responses since `before` were matched, in order, with the requests pending in `w`. */
    ghost predicate Matched(w: Pending.World, before: seq<Message>)
      reads `responses, responseReceiver, responseReceiver.net
    {
      before <= responses && World() == Pending.Heard(w, responses[|before|..])
    }

    /** The poll was one for the response receiver. */
    ghost predicate MatcherPolled(w: Pending.World, before: seq<Message>, kept: bool)
      reads `responses, responseReceiver, responseReceiver.net
    {
      before <= responses && World() == Pending.Polled(w, responses[|before|..], kept)
    }

    lemma MatcherIs(w: Pending.World, before: seq<Message>, kept: bool)
      ensures MatcherPolled(w, before, kept) <==>
        before <= responses && World() == Pending.Polled(w, responses[|before|..], kept)
    {
    }

    ghost function Line(): Line
      reads forwardingReceiver, forwardingReceiver.channel
    {
      forwardingReceiver.State()
    }

    ghost function Taken(): Intake
      reads `outbox, `responses, `inbox, forwardingReceiver, forwardingReceiver.channel
    {
      Intake(Line(), outbox, responses, inbox)
    }

    /** What is read of the stream by a poll: nothing if it is closed, or closed with the last part that
        receives. */
    ghost predicate IsOpen(updatesEnded: bool)
      reads this
    {
      stream && (requestsAllowed || (responding && !updatesEnded))
    }

    ghost function Reading(updatesEnded: bool): Parts
      reads this
    {
      Parts(requestsAllowed, forwarding, responding && !updatesEnded, true, true)
    }

    ghost function Read(updatesEnded: bool, senderAlive: bool): Intake
      reads this, forwardingReceiver, forwardingReceiver.channel
    {
      if IsOpen(updatesEnded)
      then ReadOn(phrase, forwardingReceiver.size, Reading(updatesEnded), ending, senderAlive, Taken())
      else Taken()
    }

    /** The stream is read to where it ends. */
    ghost predicate MeetsEnd(updatesEnded: bool)
      reads this, forwardingReceiver, forwardingReceiver.channel
    {
      var size, p := forwardingReceiver.size, Reading(updatesEnded);
      IsOpen(updatesEnded) && ending != Open && AsksForMore(size, p, TakeAll(phrase, size, p, Taken()))
    }

    /** The stream goes on after the poll. */
    ghost predicate StaysOpen(updatesEnded: bool, decodeExpired: bool)
      reads this, forwardingReceiver, forwardingReceiver.channel
    {
      IsOpen(updatesEnded) && !MeetsEnd(updatesEnded) && !decodeExpired
    }

    /** The stream ends with a request that could not be decoded, and there is no sender to say so. */
    ghost predicate LosesAnswer(updatesEnded: bool, senderAlive: bool)
      reads this, forwardingReceiver, forwardingReceiver.channel
    {
      MeetsEnd(updatesEnded) && IsAnswered(ending) && !senderAlive
    }

    /** What a poll leaves of the intake: what was read, and what was forwarded of it. */
    ghost predicate Leaves(t: Intake, gone: bool, k: nat)
      reads `outbox, `responses, `inbox, forwardingReceiver, forwardingReceiver.channel
    {
      && k <= Ready(t.line)
      && if gone then LosesOne(t, k, Taken()) else Taken() == t.(line := Forwarded(t.line, k))
    }

    /** No request that could be forwarded is left behind. */
    ghost predicate NoneStranded()
      reads this, forwardingReceiver, forwardingReceiver.channel
    {
      forwarding || !HasReady(Line())
    }

    /** What a poll reads is a run of the reorder buffer, of which nothing is left once no requests are
        allowed: responses are still read then, but nothing comes to the line. */
    lemma ReadIsRun(updatesEnded: bool, senderAlive: bool) returns (taken: seq<Message>)
      requires PartsOk(State())
      ensures var t := Read(updatesEnded, senderAlive);
        && inbox == taken + t.inbox
        && t.line == RunFrom(forwardingReceiver.size, Line(), Seen(State(), taken))
        && (!requestsAllowed ==> t.line == Line())
        && Reads(taken, updatesEnded, t)
    {
      hide TakeAll, RunFrom, Seen, Receive, Refuse, AnswerTo;
      NothingRuns(forwardingReceiver.size, Line());
      if IsOpen(updatesEnded) {
        taken := IntakeIsRun(phrase, forwardingReceiver.size, Reading(updatesEnded), Taken());
      } else {
        taken := [];
      }
      SeenIfAllowed(State(), Reading(updatesEnded), taken);
    }

    /** The responses among what was read were heard while they are received, the refusals were sent, and after
        those at most the answer to a bad end; the reading of an open stream stops only at its end or at a full
        buffer. */
    ghost predicate Reads(taken: seq<Message>, updatesEnded: bool, t: Intake)
      reads this, forwardingReceiver, forwardingReceiver.channel
    {
      var size, refusals := forwardingReceiver.size, Refusals(phrase, forwardingReceiver.size, Line(), taken);
      && t.responses == responses + (if responding && !updatesEnded then OnlyResponses(taken) else [])
      && (if requestsAllowed then outbox + refusals <= t.outbox else outbox <= t.outbox)
      && |t.outbox| <= |outbox| + (if requestsAllowed then |refusals| else 0) + 1
      && (IsOpen(updatesEnded) ==> t.inbox == [] || (forwarding && IsFull(size, t.line)))
    }

    /** A response receiver that is gone hears nothing. */
    lemma MatcherIdle()
      requires !responseReceiver.net.alive
      ensures MatcherPolled(World(), responses, false)
    {
      assert responses[|responses|..] == [];
    }

    lemma MatchedNone()
      ensures Matched(World(), responses)
    {
    }

    constructor (phrase: nat -> bytes, forwardingReceiver: Forwarding.ForwardingReceiver,
                 responseReceiver: Matchers.ResponseReceiver)
      requires responseReceiver.Valid() && responseReceiver.net.alive
      ensures Valid() && State() == ALL_ON && this.forwardingReceiver == forwardingReceiver
      ensures this.responseReceiver == responseReceiver
      ensures outbox == [] && responses == [] && inbox == [] && ending == Open
    {
      this.phrase := phrase;
      this.forwardingReceiver := forwardingReceiver;
      this.responseReceiver := responseReceiver;
      requestsAllowed, forwarding, responding, senderHandle, stream := true, true, true, true, true;
      inbox, ending, outbox, responses := [], Open, [], [];
    }

    ghost predicate Unread(inbox: seq<Message>, outbox: seq<Message>, responses: seq<Message>)
      reads this
    {
      this.inbox == inbox && this.outbox == outbox && this.responses == responses
    }

    /** A request is buffered or refused; the refusal can be sent because the sender is there. */
    method HandleMessage(message: Message, senderAlive: bool)
      requires Valid() && (requestsAllowed ==> senderAlive)
      requires forwarding ==> !IsFull(forwardingReceiver.size, Line())
      modifies `outbox, `responses, forwardingReceiver, responseReceiver, responseReceiver.net
      ensures Valid() && World() ==
        if responding && message.Response? then Pending.Respond(old(World()), message) else old(World())
      ensures responses == old(responses) + if responding && message.Response? then [message] else []
      ensures Taken() == TakeOne(phrase, forwardingReceiver.size, State(), old(Taken()).(inbox := [message] + inbox))
    {
      assert ([message] + inbox)[1..] == inbox;
      if message.Response? {
        if responding {
          responses := responses + [message];
          responseReceiver.HandleResponse(message);
        }
      } else if requestsAllowed {
        assert forwarding && |forwardingReceiver.buffered| < forwardingReceiver.size;
        var refusal := forwardingReceiver.HandleRequest(message);
        if refusal.Some? {
          HandleRequestReceiverError(refusal.value, senderAlive);
        }
      }
    }

    method HandleRequestReceiverError(refusal: Refusal, senderAlive: bool)
      requires Valid() && senderHandle && senderAlive
      modifies `outbox
      ensures outbox == old(outbox) + [Refuse(phrase, refusal)]
    {
      match refusal
      case BadRequest => outbox := outbox + [Plain(phrase, BAD_REQUEST)];
      case TooFar => outbox := outbox + [Plain(phrase, FORBIDDEN)];
    }

    /** The peer is told of a bad request on the wire. The answer is lost, and the receiver with it, if
        the handle is kept although the sender is gone. */
    method HandleProtocolError(error: ProtocolError, senderAlive: bool) returns (lost: bool)
      modifies `outbox
      ensures lost <==> senderHandle && AnswerTo(error).Some? && !senderAlive
      ensures outbox == old(outbox) +
        if senderHandle && AnswerTo(error).Some? && senderAlive then [Plain(phrase, AnswerTo(error).value)] else []
    {
      lost := false;
      if senderHandle {
        match error {
          case DecodeFailed(RequestKind, UnsupportedVersion) => lost := SendMessage(VERSION_NOT_SUPPORTED, senderAlive);
          case DecodeFailed(RequestKind, BodyTooLong) => lost := SendMessage(BODY_TOO_LARGE, senderAlive);
          case DecodeFailed(RequestKind, UriTooLong) => lost := SendMessage(URI_TOO_LONG, senderAlive);
          case DecodeFailed(RequestKind, _) => lost := SendMessage(BAD_REQUEST, senderAlive);
          case _ =>
        }
      }
    }

    method SendMessage(status: nat, senderAlive: bool) returns (lost: bool)
      modifies `outbox
      ensures lost <==> !senderAlive
      ensures outbox == old(outbox) + if senderAlive then [Plain(phrase, status)] else []
    {
      if senderAlive {
        outbox := outbox + [Plain(phrase, status)];
      }
      return !senderAlive;
    }

    method TakeMessage(senderAlive: bool, ghost w: Pending.World, ghost before: seq<Message>)
      requires Valid() && (requestsAllowed ==> senderAlive) && inbox != [] && Matched(w, before)
      requires forwarding ==> !IsFull(forwardingReceiver.size, Line())
      modifies `outbox, `responses, `inbox, forwardingReceiver, responseReceiver, responseReceiver.net
      ensures Valid() && Taken() == TakeOne(phrase, forwardingReceiver.size, State(), old(Taken()))
      ensures inbox == old(inbox)[1..]
      ensures Matched(w, before) && (!responding ==> responses == old(responses))
    {
      hide TakeOne, IsFull, MatcherOk, Pending.Respond, Pending.Heard;
      var message := inbox[0];
      assert [message] + inbox[1..] == inbox;
      ghost var heard := responses[|before|..];
      HeardOneMore(w, heard, message);
      inbox := inbox[1..];
      HandleMessage(message, senderAlive);
      assert heard + [] == heard;
      assert responses[|before|..] == heard + if responding && message.Response? then [message] else [];
    }

    /** The messages at hand are used up. */
    method PollEnding(senderAlive: bool) returns (r: Poll, lost: bool)
      requires Valid() && stream
      modifies `outbox, `stream
      ensures Valid() && stream == ending.Open? && (r.Done? <==> !stream)
      ensures outbox == old(outbox) +
        if IsAnswered(ending) && senderAlive then [Plain(phrase, AnswerTo(ending.error).value)] else []
      ensures lost <==> IsAnswered(ending) && !senderAlive
    {
      hide AnswerTo, Plain, MatcherOk;
      match ending
      case Open => return NotReady, false;
      case Ended =>
        stream := false;
        return Done, false;
      case Failed(error) =>
        lost := HandleProtocolError(error, senderAlive);
        stream := false;
        return Done, lost;
    }

    /** Messages are taken until there are none, or until the buffer is full. */
    method PollMessages(senderAlive: bool) returns (more: bool)
      requires Valid() && stream && (requestsAllowed ==> senderAlive)
      modifies `outbox, `responses, `inbox, forwardingReceiver, responseReceiver, responseReceiver.net
      ensures Valid() && Taken() == old(TakeAll(phrase, forwardingReceiver.size, State(), Taken()))
      ensures Matched(old(World()), old(responses)) && (!responding ==> responses == old(responses))
      ensures more <==> AsksForMore(forwardingReceiver.size, State(), Taken())
    {
      hide Receive, TakeOne, MatcherOk, Matched;
      ghost var p, size, start := State(), forwardingReceiver.size, Taken();
      MatchedNone();
      while inbox != []
        invariant Valid() && State() == p
        invariant TakeAll(phrase, size, p, Taken()) == TakeAll(phrase, size, p, start)
        invariant Matched(old(World()), old(responses)) && (!responding ==> responses == old(responses))
        decreases |inbox|
      {
        if forwarding {
          var full := forwardingReceiver.IsFull();
          if full {
            return false;
          }
        }
        TakeMessage(senderAlive, old(World()), old(responses));
      }
      if forwarding {
        var full := forwardingReceiver.IsFull();
        return !full;
      }
      return true;
    }

    /** Done once the stream is over; it is then closed. */
    method PollStream(senderAlive: bool) returns (r: Poll, lost: bool)
      requires Valid() && (requestsAllowed ==> senderAlive)
      modifies `outbox, `responses, `inbox, `stream, forwardingReceiver, responseReceiver, responseReceiver.net
      ensures Valid() && Taken() == old(Read(false, senderAlive))
      ensures Matched(old(World()), old(responses)) && (!responding ==> responses == old(responses))
      ensures stream <==> old(stream && !MeetsEnd(false))
      ensures r.Done? <==> !stream
      ensures lost <==> old(LosesAnswer(false, senderAlive))
    {
      hide TakeAll, AsksForMore, AnswerTo, Plain, MatcherOk, Matched;
      MatchedNone();
      if !stream {
        return Done, false;
      }
      assert State() == Reading(false);
      var more := PollMessages(senderAlive);
      if !more {
        return NotReady, false;
      }
      r, lost := PollEnding(senderAlive);
    }

    method ShutdownForwardingReceiver() returns (down: bool)
      requires Valid()
      modifies `requestsAllowed, `forwarding, `responding, `senderHandle, `stream
      ensures Valid() && OnlyOff(old(State()), State())
      ensures !forwarding && !requestsAllowed && responding == old(responding)
      ensures stream == (old(stream) && responding)
      ensures down <==> IsShutdown(State())
      ensures Unread(old(inbox), old(outbox), old(responses))
    {
      forwarding := false;
      down := ShutdownRequestReceiver();
    }

    /** Requests are no longer taken. The forwarding receiver goes too, unless it has requests ready. */
    method ShutdownRequestReceiver() returns (down: bool)
      requires (senderHandle <==> requestsAllowed || responding) && (stream ==> senderHandle) && MatcherOk()
      modifies `requestsAllowed, `forwarding, `responding, `senderHandle, `stream
      ensures Valid() && OnlyOff(old(State()), State())
      ensures !requestsAllowed && responding == old(responding)
      ensures stream == (old(stream) && responding)
      ensures forwarding <==> old(forwarding) && HasReady(Line())
      ensures down <==> IsShutdown(State())
      ensures Unread(old(inbox), old(outbox), old(responses))
    {
      requestsAllowed := false;
      if !responding {
        senderHandle := false;
        stream := false;
      }
      if forwarding {
        var ready := forwardingReceiver.HasRequestsReady();
        if !ready {
          forwarding := false;
        }
      }
      return !requestsAllowed && !responding && !forwarding;
    }

    method ShutdownResponseReceiver() returns (down: bool)
      requires Valid()
      modifies `requestsAllowed, `forwarding, `responding, `senderHandle, `stream,
        responseReceiver, responseReceiver.net
      ensures World() == Pending.Close(old(World()))
      ensures Valid() && OnlyOff(old(State()), State())
      ensures !responding && requestsAllowed == old(requestsAllowed) && forwarding == old(forwarding)
      ensures stream == (old(stream) && requestsAllowed)
      ensures down <==> IsShutdown(State())
      ensures Unread(old(inbox), old(outbox), old(responses))
    {
      responding := false;
      responseReceiver.Close();
      if !requestsAllowed {
        senderHandle := false;
        stream := false;
      }
      return !requestsAllowed && !responding && !forwarding;
    }

    method ShutdownReceiving() returns (down: bool)
      requires Valid()
      modifies `requestsAllowed, `forwarding, `responding, `senderHandle, `stream,
        responseReceiver, responseReceiver.net
      ensures World() == Pending.Close(old(World()))
      ensures Valid() && OnlyOff(old(State()), State())
      ensures !requestsAllowed && !responding && !senderHandle && !stream
      ensures forwarding <==> old(forwarding) && HasReady(Line())
      ensures down <==> IsShutdown(State())
      ensures Unread(old(inbox), old(outbox), old(responses))
    {
      var _ := ShutdownRequestReceiver();
      down := ShutdownResponseReceiver();
    }

    /** Done when nothing more will be received: the stream is over or decoding took too long. */
    method PollReceiving(updatesEnded: bool, decodeExpired: bool, senderAlive: bool) returns (r: Poll, lost: bool)
      requires Valid() && (requestsAllowed ==> senderAlive)
      modifies `responding, `senderHandle, `stream, `requestsAllowed, `forwarding, `outbox, `responses, `inbox,
        forwardingReceiver, responseReceiver, responseReceiver.net
      ensures Valid() && OnlyOff(old(State()), State())
      ensures MatcherPolled(old(World()), old(responses), responding)
      ensures requestsAllowed == old(requestsAllowed) && forwarding == old(forwarding)
      ensures responding == (old(responding) && !updatesEnded)
      ensures Taken() == old(Read(updatesEnded, senderAlive))
      ensures stream <==> old(IsOpen(updatesEnded) && !MeetsEnd(updatesEnded))
      ensures r.NotReady? <==> stream && !decodeExpired
      ensures lost <==> old(LosesAnswer(updatesEnded, senderAlive))
    {
      hide TakeAll, ReadOn, AsksForMore, AnswerTo, IsAnswered, Matchers.ResponseReceiver.Valid;
      if responding {
        responseReceiver.PollUpdates();
        if updatesEnded {
          var _ := ShutdownResponseReceiver();
        }
      }
      r, lost := PollStream(senderAlive);
      if r.NotReady? && decodeExpired {
        r := Done;
      }
    }

    /** The first half of a poll: receiving, and what follows when there is no more of it. */
    method PollIntake(updatesEnded: bool, decodeExpired: bool, senderAlive: bool) returns (lost: bool)
      requires Valid() && (requestsAllowed ==> senderAlive)
      modifies `responding, `senderHandle, `stream, `requestsAllowed, `forwarding, `outbox, `responses, `inbox,
        forwardingReceiver, responseReceiver, responseReceiver.net
      ensures Valid() && OnlyOff(old(State()), State())
      ensures MatcherPolled(old(World()), old(responses), responding)
      ensures Taken() == old(Read(updatesEnded, senderAlive))
      ensures stream <==> old(StaysOpen(updatesEnded, decodeExpired))
      ensures stream ==> requestsAllowed == old(requestsAllowed) && forwarding == old(forwarding)
      ensures stream ==> responding == (old(responding) && !updatesEnded)
      ensures !stream ==> !requestsAllowed && !responding && (forwarding <==> old(forwarding) && HasReady(Line()))
      ensures lost <==> old(LosesAnswer(updatesEnded, senderAlive))
    {
      hide Read, MeetsEnd, LosesAnswer, MatcherOk, HasReady, Pending.Polled, Pending.Close;
      var r;
      r, lost := PollReceiving(updatesEnded, decodeExpired, senderAlive);
      if r.Done? {
        ClosedForGood(old(World()), responses[|old(responses)|..], responding);
        var _ := ShutdownReceiving();
      }
    }

    /** The second half: what is ready of the line is forwarded. */
    method PollForwarding() returns (r: Poll, ghost gone: bool, ghost k: nat)
      requires Valid()
      modifies `responding, `senderHandle, `stream, `requestsAllowed, `forwarding,
        forwardingReceiver, forwardingReceiver.channel
      ensures Valid() && OnlyOff(old(State()), State())
      ensures responding == old(responding) && (responding ==> stream == old(stream))
      ensures r.Done? <==> IsShutdown(State())
      ensures stream ==> old(stream)
      ensures k <= Ready(old(Line()))
      ensures !old(forwarding) ==> k == 0 && !gone && State() == old(State())
      ensures !gone ==> Line() == Forwarded(old(Line()), k)
      ensures !gone && forwarding ==> State() == old(State())
      ensures requestsAllowed == (old(requestsAllowed) && !gone) && stream == (old(stream) && (!gone || responding))
      ensures forwarding <==> old(forwarding) && !gone && (requestsAllowed || HasReady(Line()))
      ensures old(forwarding) && !forwarding && !gone ==>
        !old(requestsAllowed) && k == Ready(old(Line())) && !HasReady(Line())
      ensures gone ==> !forwarding && LosesOne(old(Taken()), k, Taken())
      ensures Pushed(Ready(old(Line())), old(forwarding), old(forwardingReceiver.channel.open),
                     old(forwardingReceiver.channel.room), gone, k)
      ensures Unread(old(inbox), old(outbox), old(responses))
    {
      hide Forwarded, Ready, HasReady, MatcherOk;
      ghost var before := Line();
      gone, k := false, 0;
      NoneForwarded(before);
      var down: bool;
      if forwarding {
        var polled;
        polled, k := forwardingReceiver.Poll();
        down := false;
        Forwarding.RunEnds(before, k);
        if polled.Broken? {
          gone := true;
          down := ShutdownForwardingReceiver();
        } else if polled.Done? && !requestsAllowed {
          ForwardedAll(before, k);
          down := ShutdownForwardingReceiver();
        }
      } else {
        down := !requestsAllowed && !responding && !forwarding;
      }
      r := if down then Done else NotReady;
    }

    /** What is read goes to the line, and what is ready of the line is forwarded. Once no requests are
        allowed, with responses still read or not, nothing comes to the line, and forwarding goes on until
        nothing is ready, or until the handler is found gone. */
    method PollOnce(updatesEnded: bool, decodeExpired: bool, senderAlive: bool)
      returns (r: Poll, lost: bool, ghost gone: bool, ghost k: nat)
      requires Valid() && (requestsAllowed ==> senderAlive)
      modifies `responding, `senderHandle, `stream, `requestsAllowed, `forwarding, `outbox, `responses, `inbox,
        forwardingReceiver, forwardingReceiver.channel, responseReceiver, responseReceiver.net
      ensures Valid() && OnlyOff(old(State()), State())
      ensures MatcherPolled(old(World()), old(responses), responding)
      ensures r.Done? <==> IsShutdown(State())
      ensures r.Done? ==> State() == ALL_OFF
      ensures GoOff(old(State()), State(), old(StaysOpen(updatesEnded, decodeExpired)), gone, updatesEnded,
                    HasReady(Line()))
      ensures stream ==> old(StaysOpen(updatesEnded, decodeExpired))
      ensures old(StaysOpen(updatesEnded, decodeExpired)) && !gone ==>
        stream && requestsAllowed == old(requestsAllowed) && responding == (old(responding) && !updatesEnded)
      ensures !old(forwarding) ==> k == 0 && !gone
      ensures Leaves(old(Read(updatesEnded, senderAlive)), gone, k) && (gone ==> !forwarding)
      ensures Pushed(Ready(old(Read(updatesEnded, senderAlive)).line), old(forwarding),
                     old(forwardingReceiver.channel.open), old(forwardingReceiver.channel.room), gone, k)
      ensures old(forwarding) && !forwarding && !gone ==>
        !requestsAllowed && k == Ready(old(Read(updatesEnded, senderAlive)).line)
      ensures !old(requestsAllowed) ==> old(Read(updatesEnded, senderAlive)).line == old(Line())
      ensures old(NoneStranded()) && !gone ==> NoneStranded()
      ensures lost <==> old(LosesAnswer(updatesEnded, senderAlive))
    {
      hide Read, StaysOpen, LosesAnswer, LosesOne, Forwarded, Ready, HasReady, RunFrom, Seen, MatcherOk;
      var _ := ReadIsRun(updatesEnded, senderAlive);
      lost := PollIntake(updatesEnded, decodeExpired, senderAlive);
      NoneForwarded(Line());
      if !HasReady(Line()) {
        NothingPushed(Line(), forwardingReceiver.channel.open, forwardingReceiver.channel.room);
      }
      r, gone, k := PollForwarding();
    }
  }

  lemma ClosedForGood(w: Pending.World, ms: seq<Message>, kept: bool)
    ensures Pending.Close(Pending.Polled(w, ms, kept)) == Pending.Polled(w, ms, false)
  {
  }

  lemma HeardOneMore(w: Pending.World, ms: seq<Message>, m: Message)
    ensures Pending.Heard(w, ms + [m]) == Pending.Respond(Pending.Heard(w, ms), m)
  {
    assert (ms + [m])[..|ms|] == ms;
  }

  /** How many of the ready requests are forwarded: as many as there is room for, or none if the handler is gone,
      which is noticed just if there is one to forward. */
  predicate Pushed(ready: nat, forwarding: bool, open: bool, room: nat, gone: bool, k: nat) {
    && (gone <==> forwarding && !open && ready > 0)
    && k == if forwarding && open then Forwarding.Min(ready, room) else 0
  }

  lemma NothingPushed(l: Line, open: bool, room: nat)
    requires !HasReady(l)
    ensures Pushed(Ready(l), true, open, room, false, 0)
  {
  }

  /** With the handler gone, the request that was to be forwarded after `k` others is lost. */
  predicate LosesOne(t: Intake, k: nat, t': Intake) {
    var l := Forwarded(t.line, k);
    && HasReady(l)
    && t' == t.(line := l.(buffered := l.buffered - {l.next.value}, next := t.line.next))
  }

  lemma NoneForwarded(l: Line)
    ensures Forwarded(l, 0) == l
    ensures !HasReady(l) ==> Ready(l) == 0
  {
  }

  // ---------------------------------------------------------------- draining, poll by poll

  lemma ForwardStep(l: Line, k: nat)
    requires 0 < k && 0 < Ready(l)
    ensures HasReady(l) && Ready(ForwardOne(l)) == Ready(l) - 1
    ensures Forwarded(l, k) == Forwarded(ForwardOne(l), k - 1)
  {
  }

  lemma {:induction false} ForwardedAdds(l: Line, a: nat, b: nat)
    requires a <= Ready(l)
    ensures Forwarded(Forwarded(l, a), b) == Forwarded(l, a + b)
    ensures Ready(Forwarded(l, a)) == Ready(l) - a
    decreases a
  {
    hide *;
    if a == 0 {
      NoneForwarded(l);
    } else {
      ForwardStep(l, a);
      ForwardStep(l, a + b);
      ForwardedAdds(ForwardOne(l), a - 1, b);
    }
  }

  /** The lines between polls to which nothing comes: each poll forwards some of what is ready. */
  predicate IsDrain(lines: seq<Line>, counts: seq<nat>) {
    && |lines| == |counts| + 1
    && forall i :: 0 <= i < |counts| ==>
         counts[i] <= Ready(lines[i]) && lines[i + 1] == Forwarded(lines[i], counts[i])
  }

  lemma DrainStarts(lines: seq<Line>, counts: seq<nat>)
    requires IsDrain(lines, counts) && counts != []
    ensures IsDrain(lines[1..], counts[1..]) && counts[0] <= Ready(lines[0])
    ensures lines[1] == Forwarded(lines[0], counts[0]) && lines[1..][|counts[1..]|] == lines[|counts|]
  {
    hide Forwarded, Ready;
    forall i | 0 <= i < |counts[1..]|
      ensures counts[1..][i] <= Ready(lines[1..][i]) && lines[1..][i + 1] == Forwarded(lines[1..][i], counts[1..][i])
    {
      assert counts[i + 1] <= Ready(lines[i + 1]) && lines[i + 2] == Forwarded(lines[i + 1], counts[i + 1]);
    }
  }

  lemma {:induction false} DrainAddsUp(lines: seq<Line>, counts: seq<nat>)
    requires IsDrain(lines, counts) && !HasReady(lines[|counts|])
    ensures lines[|counts|] == Forwarded(lines[0], Ready(lines[0]))
    decreases |counts|
  {
    hide Forwarded, Ready, HasReady;
    if counts == [] {
      NoneForwarded(lines[0]);
    } else {
      DrainStarts(lines, counts);
      DrainAddsUp(lines[1..], counts[1..]);
      ForwardedAdds(lines[0], counts[0], Ready(lines[1]));
    }
  }

  /** Sent was exactly the gapless run of buffered requests from the expected one, and nothing is ready. */
  predicate IsDrained(first: Line, last: Line) {
    && !HasReady(last) && last == Forwarded(first, Ready(first))
    && |last.sent| == |first.sent| + Ready(first) && last.sent[..|first.sent|] == first.sent
    && forall i :: 0 <= i < Ready(first) ==>
         var c := Ahead(first.next.value, i);
         c in first.buffered && last.sent[|first.sent| + i] == (c, first.buffered[c])
  }

  /** However the polls share the work, by the time nothing is ready the line is drained. */
  lemma DrainedByPolls(lines: seq<Line>, counts: seq<nat>)
    requires IsDrain(lines, counts) && !HasReady(lines[|counts|])
    ensures IsDrained(lines[0], lines[|counts|])
  {
    hide Forwarded, Ready, HasReady;
    DrainAddsUp(lines, counts);
    ForwardedSends(lines[0], Ready(lines[0]));
  }

  /** What the surroundings are at a poll, and what came on the stream since the last one. */
  datatype Visit = Visit(
    arrived: seq<Message>,
    ending: Ending,
    updatesEnded: bool,
    decodeExpired: bool,
    senderAlive: bool)

  /** The receiver polled any number of times after requests were shut down, while responses and further
      requests may still come. Unless the handler goes, each poll only forwards, and when forwarding is
      given up the line is drained. */
  method DrainReceiver(receiver: Receiver, visits: seq<Visit>)
    returns (ghost gone: bool, ghost lines: seq<Line>, ghost counts: seq<nat>)
    requires receiver.Valid() && !receiver.requestsAllowed && receiver.forwarding
    modifies receiver, receiver.forwardingReceiver, receiver.forwardingReceiver.channel,
      receiver.responseReceiver, receiver.responseReceiver.net
    ensures receiver.Valid() && !receiver.requestsAllowed
    ensures !gone ==> IsDrain(lines, counts) && |counts| == |visits|
    ensures !gone ==> lines[0] == old(receiver.Line()) && lines[|counts|] == receiver.Line()
    ensures !gone && !receiver.forwarding ==> IsDrained(old(receiver.Line()), receiver.Line())
  {
    hide IsDrained, Forwarded, Ready, Receiver.MatcherPolled, Receiver.MatcherOk, Receiver.Read, LosesOne, RunFrom;
    gone, lines, counts := false, [receiver.Line()], [];
    for i := 0 to |visits|
      invariant receiver.Valid() && !receiver.requestsAllowed
      invariant !gone ==> IsDrain(lines, counts) && |counts| == i
      invariant !gone ==> lines[0] == old(receiver.Line()) && lines[|counts|] == receiver.Line()
      invariant !gone ==> receiver.NoneStranded()
    {
      var v := visits[i];
      receiver.inbox, receiver.ending := receiver.inbox + v.arrived, v.ending;
      var _, _, lost, k := receiver.PollOnce(v.updatesEnded, v.decodeExpired, v.senderAlive);
      gone := gone || lost;
      if !gone {
        lines, counts := lines + [receiver.Line()], counts + [k];
      }
    }
    if !gone && !receiver.forwarding {
      DrainedByPolls(lines, counts);
    }
  }
}
