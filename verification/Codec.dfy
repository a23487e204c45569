/** The codec object: two decoders, of which the bytes and the decoder states choose one. */
module Codecs {
  import opened Bytes
  import opened Decoding
  import opened Streaming
  import opened Decoders

  /** The growable byte buffer that the framing layer fills and the codec drains. */
  class ByteBuffer {
    var data: bytes

    constructor ()
      ensures data == []
    {
      data := [];
    }

    method SplitTo(n: nat)
      requires n <= |data|
      modifies this
      ensures data == old(data)[n..]
    {
      data := data[n..];
    }

    method Extend(more: bytes)
      modifies this
      ensures data == old(data) + more
    {
      data := data + more;
    }
  }

  // ---------------------------------------------------------------- the decoders within the machine

  /** How the machine sees one call of the decoder it runs. */
  function AfterCall(cfg: Config, c: Codec, call: Call, buf: bytes): Progress
    requires WfCodec(c) && Wf(call.after) && call.used <= |buf|
  {
    if call.outcome.Complete? then
      Prepend(Some(call.outcome.message), Run(cfg, Put(c, call.after), buf[call.used..]))
    else
      Progress(Put(c, call.after), buf[call.used..], [])
  }

  lemma RunDecoderStep(cfg: Config, c: Codec, buf: bytes, kind: Kind)
    requires WfCodec(c) && RouteOf(c, buf) == To(kind)
    ensures var d, r := Get(c, kind), Run(cfg, c, buf);
      var s := DecStep(cfg, d, buf);
      && (s.Wait? ==> r == Progress(c, buf, []))
      && (s.Fail? ==> r == Run(cfg, Put(c, d.(phase := Failed(s.error))), buf[s.skipped..]))
      && (s.More? ==> r == Prepend(s.message, Run(cfg, Put(c, s.next), buf[s.used..])))
  {
    hide DecStep;
  }

  lemma RunStaysFailed(cfg: Config, c: Codec, buf: bytes, kind: Kind)
    requires WfCodec(c) && RouteOf(c, buf) == To(kind) && Get(c, kind).phase.Failed?
    ensures Run(cfg, c, buf) == Progress(c, buf, [])
  {
  }

  lemma PutStays(c: Codec, kind: Kind, d: Dec, buf: bytes, buf': bytes)
    requires RouteOf(c, buf) == To(kind) && d.kind == kind && d.phase != StartPhase(kind)
    ensures RouteOf(Put(c, d), buf') == To(kind) && Get(Put(c, d), kind) == d
  {
  }

  /** The machine runs the chosen decoder through exactly what one call of it does. */
  lemma {:induction false} RunFollowsDecode(cfg: Config, c: Codec, buf: bytes, kind: Kind)
    requires WfCodec(c) && RouteOf(c, buf) == To(kind)
    ensures Run(cfg, c, buf) == AfterCall(cfg, c, Decode(cfg, Get(c, kind), buf), buf)
    decreases |buf|, Rank(Get(c, kind))
  {
    hide DecStep, Run, Decode, RouteOf;
    var d := Get(c, kind);
    assert buf[0..] == buf && Put(c, d) == c;
    if d.phase.Failed? {
      RunStaysFailed(cfg, c, buf, kind);
      FailedStays(cfg, d, buf);
    } else {
      RunDecoderStep(cfg, c, buf, kind);
      DecodeUnfolds(cfg, d, buf);
      match DecStep(cfg, d, buf)
      case Wait =>
      case Fail(error, n) =>
        var failed := d.(phase := Failed(error));
        PutStays(c, kind, failed, buf, buf[n..]);
        RunStaysFailed(cfg, Put(c, failed), buf[n..], kind);
      case More(next, used, message) =>
        if message.None? {
          PutStays(c, kind, next, buf, buf[used..]);
          RunFollowsDecode(cfg, Put(c, next), buf[used..], kind);
          var call := Decode(cfg, next, buf[used..]);
          assert buf[used..][call.used..] == buf[used + call.used..];
          assert Put(Put(c, next), call.after) == Put(c, call.after);
        }
    }
  }

  /** The error that every further call reports. */
  function Verdict(c: Codec): Option<DecodeError> {
    if c.request.phase.Failed? then Some(c.request.phase.error)
    else if c.request.phase == AtMethod && c.response.phase.Failed? then Some(c.response.phase.error)
    else None
  }

  lemma RunSkips(cfg: Config, c: Codec, buf: bytes)
    requires WfCodec(c)
    ensures RouteOf(c, buf).Skip? ==> Run(cfg, c, buf) == Run(cfg, c, buf[2..])
    ensures RouteOf(c, buf).TooShort? ==> Run(cfg, c, buf) == Progress(c, buf, [])
  {
    hide DecStep;
  }

  class MessageCodec {
    const config: Config
    const requestDecoder: Decoder
    const responseDecoder: Decoder

    ghost function State(): Codec
      reads requestDecoder, responseDecoder
    {
      Codec(requestDecoder.State(), responseDecoder.State())
    }

    ghost predicate Valid()
      reads requestDecoder, responseDecoder
    {
      && requestDecoder != responseDecoder
      && requestDecoder.config == responseDecoder.config == config
      && WfCodec(State())
    }

    constructor (config: Config)
      ensures Valid() && fresh(requestDecoder) && fresh(responseDecoder)
      ensures this.config == config && State() == INITIAL
    {
      this.config := config;
      requestDecoder := new Decoder(RequestKind, config);
      responseDecoder := new Decoder(ResponseKind, config);
    }

    /** What a call left of the run that was possible before it: nothing, or the part behind the one
        message that it returned. */
    ghost predicate Returned(before: Codec, data: bytes, r: Result<Option<Message>, DecodeError>, left: bytes)
      requires WfCodec(before)
      reads requestDecoder, responseDecoder
    {
      && WfCodec(State())
      && match r
         case Ok(Some(m)) => Run(config, before, data) == Prepend(Some(m), Run(config, State(), left))
         case Ok(None) => Run(config, before, data) == Progress(State(), left, []) && Verdict(State()).None?
         case Err(error) =>
           Run(config, before, data) == Progress(State(), left, []) && Verdict(State()) == Some(error)
    }

    method DecodeWith(kind: Kind, buffer: ByteBuffer) returns (r: Result<Option<Message>, DecodeError>)
      requires Valid() && RouteOf(State(), buffer.data) == To(kind)
      modifies requestDecoder, responseDecoder, buffer
      ensures Valid() && Returned(old(State()), old(buffer.data), r, buffer.data)
    {
      hide Run, Decoding.Decode;
      ghost var before, data := State(), buffer.data;
      RunFollowsDecode(config, before, data, kind);
      var decoder := if kind == RequestKind then requestDecoder else responseDecoder;
      var outcome, used := decoder.Decode(buffer.data);
      buffer.SplitTo(used);
      assert State() == Put(before, Decoding.Decode(config, Get(before, kind), data).after);
      match outcome
      case Complete(message) => return Ok(Some(message));
      case Incomplete => return Ok(None);
      case Error(error) => return Err(error);
    }

    method Decode(buffer: ByteBuffer) returns (r: Result<Option<Message>, DecodeError>)
      requires Valid()
      modifies requestDecoder, responseDecoder, buffer
      ensures Valid() && Returned(old(State()), old(buffer.data), r, buffer.data)
    {
      hide Run;
      if requestDecoder.phase != AtMethod {
        r := DecodeWith(RequestKind, buffer);
      } else if responseDecoder.phase != AtVersion {
        r := DecodeWith(ResponseKind, buffer);
      } else {
        ghost var before, data := State(), buffer.data;
        while StartsWith(buffer.data, CRLF)
          invariant State() == before && Run(config, before, buffer.data) == Run(config, before, data)
          decreases |buffer.data|
        {
          RunSkips(config, before, buffer.data);
          buffer.SplitTo(2);
        }
        RunSkips(config, before, buffer.data);
        if |buffer.data| < MINIMUM_INFO_LINE_SIZE {
          r := Ok(None);
        } else if StartsWith(buffer.data, RTSP_SLASH) {
          r := DecodeWith(ResponseKind, buffer);
        } else {
          r := DecodeWith(RequestKind, buffer);
        }
      }
    }

    /** The framing layer asks until there is no message: that is the run on the bytes at hand, and the
        error is the one that stopped it. */
    method DecodeAll(buffer: ByteBuffer) returns (ms: seq<Message>, error: Option<DecodeError>)
      requires Valid()
      modifies requestDecoder, responseDecoder, buffer
      ensures Valid() && Run(config, old(State()), old(buffer.data)) == Progress(State(), buffer.data, ms)
      ensures error == Verdict(State())
    {
      hide Run, Verdict;
      ms, error := [], None;
      ghost var all := Run(config, State(), buffer.data);
      while true
        invariant Valid() && all == Behind(ms, Run(config, State(), buffer.data))
        decreases |Run(config, State(), buffer.data).messages|
      {
        var r := Decode(buffer);
        match r
        case Ok(Some(m)) => ms := ms + [m];
        case Ok(None) => return;
        case Err(e) => return ms, Some(e);
      }
    }

    /** The stream comes in pieces, each put behind the bytes left over. */
    method DecodePieces(buffer: ByteBuffer, chunks: seq<bytes>) returns (ms: seq<Message>)
      requires Valid()
      modifies requestDecoder, responseDecoder, buffer
      ensures Valid()
      ensures Feed(config, Progress(old(State()), old(buffer.data), []), chunks) ==
        Progress(State(), buffer.data, ms)
    {
      hide Run, Feed;
      ms := [];
      ghost var all := Feed(config, Progress(State(), buffer.data, []), chunks);
      for i := 0 to |chunks|
        invariant Valid()
        invariant all == Feed(config, Progress(State(), buffer.data, ms), chunks[i..])
      {
        FeedUnfolds(config, Progress(State(), buffer.data, ms), chunks[i..]);
        buffer.Extend(chunks[i]);
        var more, _ := DecodeAll(buffer);
        ms := ms + more;
        assert chunks[i..][1..] == chunks[i + 1..];
      }
      FeedUnfolds(config, Progress(State(), buffer.data, ms), []);
    }
  }

  /** What comes after the messages already returned. */
  function Behind(ms: seq<Message>, r: Progress): Progress {
    r.(messages := ms + r.messages)
  }

  lemma FeedUnfolds(cfg: Config, r: Progress, chunks: seq<bytes>)
    requires WfCodec(r.codec)
    ensures Feed(cfg, r, chunks) == if chunks == [] then r else Feed(cfg, Resume(cfg, r, chunks[0]), chunks[1..])
  {
    hide Resume;
  }
}
