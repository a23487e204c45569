/** The codec as a machine over a stream: which decoder runs, what one step does to the decoders and
    the bytes that wait, and the run of all steps that the bytes at hand allow. */
module Streaming {
  import opened Bytes
  import opened Decoding

  const MINIMUM_INFO_LINE_SIZE: nat := 5

  datatype Codec = Codec(request: Dec, response: Dec)

  const INITIAL := Codec(Fresh(RequestKind), Fresh(ResponseKind))

  predicate WfCodec(c: Codec) {
    && c.request.kind == RequestKind && Wf(c.request)
    && c.response.kind == ResponseKind && Wf(c.response)
  }

  function Get(c: Codec, kind: Kind): Dec {
    if kind == RequestKind then c.request else c.response
  }

  function Put(c: Codec, d: Dec): Codec {
    if d.kind == RequestKind then c.(request := d) else c.(response := d)
  }

  /** Neither decoder is past its starting state. */
  predicate IsIdle(c: Codec) {
    c.request.phase == AtMethod && c.response.phase == AtVersion
  }

  /** Line breaks, as they may stand before and behind messages. */
  function Breaks(n: nat): bytes {
    if n == 0 then [] else CRLF + Breaks(n - 1)
  }

  datatype Route = Skip | TooShort | To(kind: Kind)

  /** A decoder past its starting state goes on; otherwise line breaks are dropped and five bytes
      tell a response from a request. */
  function RouteOf(c: Codec, buf: bytes): Route {
    if c.request.phase != AtMethod then To(RequestKind)
    else if c.response.phase != AtVersion then To(ResponseKind)
    else if StartsWith(buf, CRLF) then Skip
    else if |buf| < MINIMUM_INFO_LINE_SIZE then TooShort
    else if StartsWith(buf, RTSP_SLASH) then To(ResponseKind)
    else To(RequestKind)
  }

  /** Between messages: two bytes tell a line break, and five a response, which begins with RTSP and a slash. */
  lemma RouteExact(c: Codec, buf: bytes)
    requires IsIdle(c)
    ensures RouteOf(c, buf) == Skip <==> |buf| >= 2 && buf[0] == 13 && buf[1] == 10
    ensures RouteOf(c, buf) == TooShort <==> |buf| < 5 && !(|buf| >= 2 && buf[0] == 13 && buf[1] == 10)
    ensures RouteOf(c, buf) == To(ResponseKind) <==>
      |buf| >= 5 && buf[0] == 82 && buf[1] == 84 && buf[2] == 83 && buf[3] == 80 && buf[4] == 47
  {
    if |buf| >= 2 {
      assert buf[..2] == [buf[0], buf[1]];
    }
    if |buf| >= 5 {
      assert buf[..5] == [buf[0], buf[1], buf[2], buf[3], buf[4]];
    }
  }

  datatype Tick = Stuck | Did(codec: Codec, used: nat, message: Option<Message>)

  function CodecStep(cfg: Config, c: Codec, buf: bytes): (t: Tick)
    requires WfCodec(c)
    ensures t.Did? ==> WfCodec(t.codec) && t.used <= |buf|
    ensures t.Did? ==> t.used > 0 || CodecRank(t.codec) < CodecRank(c)
  {
    match RouteOf(c, buf)
    case Skip => Did(c, 2, None)
    case TooShort => Stuck
    case To(kind) =>
      match DecStep(cfg, Get(c, kind), buf)
      case Wait => Stuck
      case More(next, used, message) => Did(Put(c, next), used, message)
      case Fail(error, skipped) => Did(Put(c, Get(c, kind).(phase := Failed(error))), skipped, None)
  }

  function CodecRank(c: Codec): nat {
    Rank(c.request) + Rank(c.response)
  }

  /** Where a run stops: the decoders (a failed one names the error), the bytes left, the messages. */
  datatype Progress = Progress(codec: Codec, rest: bytes, messages: seq<Message>)

  function Prepend(message: Option<Message>, r: Progress): (p: Progress)
    ensures p.codec == r.codec && p.rest == r.rest
  {
    if message.Some? then r.(messages := [message.value] + r.messages) else r
  }

  function Run(cfg: Config, c: Codec, buf: bytes): (r: Progress)
    requires WfCodec(c)
    ensures WfCodec(r.codec) && |r.rest| <= |buf|
    decreases |buf|, CodecRank(c)
  {
    match CodecStep(cfg, c, buf)
    case Stuck => Progress(c, buf, [])
    case Did(next, used, message) => Prepend(message, Run(cfg, next, buf[used..]))
  }

  const START := Progress(INITIAL, [], [])

  /** The bytes of a new read are put behind the bytes left over. */
  function Resume(cfg: Config, r: Progress, chunk: bytes): (r': Progress)
    requires WfCodec(r.codec)
    ensures WfCodec(r'.codec)
  {
    var s := Run(cfg, r.codec, r.rest + chunk);
    Progress(s.codec, s.rest, r.messages + s.messages)
  }

  /** The stream cut into reads. */
  function Feed(cfg: Config, r: Progress, chunks: seq<bytes>): (r': Progress)
    requires WfCodec(r.codec)
    ensures WfCodec(r'.codec)
    decreases |chunks|
  {
    if chunks == [] then r else Feed(cfg, Resume(cfg, r, chunks[0]), chunks[1..])
  }

  function Concat(chunks: seq<bytes>): bytes {
    if chunks == [] then [] else chunks[0] + Concat(chunks[1..])
  }
}
