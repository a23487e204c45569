/** One decoding step of a request or a response, as a function of the decoder state and the bytes
    present, and the decoder that iterates it until a message is complete. The header, body and end
    states of the two decoders are the same code; `kind` tells which start line is read. */
module Decoding {
  import opened Bytes
  import opened Syntax

  datatype Kind = RequestKind | ResponseKind

  datatype Header = Header(name: bytes, value: bytes)

  datatype Message =
    | Request(verb: bytes, uri: bytes, headers: seq<Header>, body: bytes)
    | Response(status: nat, reason: bytes, headers: seq<Header>, body: bytes)

  /** The limits of a decoder and the three tables it consults. `parseUri` gives the printed form of
      the URI it parsed; `canonicalReason` is the phrase of a standard status code. */
  datatype Config = Config(
    bodyMax: nat,
    headerMaxCount: nat,
    nameMax: nat,
    valueMax: nat,
    methodMax: nat,
    uriMax: nat,
    reasonMax: nat,
    parseUri: bytes -> Option<bytes>,
    standardNames: seq<bytes>,
    canonicalReason: nat -> Option<bytes>)

  datatype DecodeError =
    | BodyTooLong
    | HeaderNameTooLong
    | HeaderValueTooLong
    | InvalidContentLength
    | InvalidHeaderName(name: HeaderNameError)
    | InvalidHeaderValue(value: HeaderValueError)
    | InvalidMethod(verb: MethodError)
    | MethodTooLong
    | TooManyHeaders
    | UnsupportedVersion
    | InvalidUri
    | UriTooLong
    | BadVersion(version: VersionError)
    | InvalidReason(reason: ReasonError)
    | ReasonPhraseTooLong
    | BadStatus(status: StatusError)

  datatype Phase =
    | AtMethod
    | AtUri
    | AtVersion
    | AtStatus
    | AtReason
    | AtHeader
    | AtBody
    | AtEnd
    | Failed(error: DecodeError)

  datatype Builder = Builder(
    verb: Option<bytes>,
    uri: Option<bytes>,
    status: nat,
    reason: Option<bytes>,
    headers: seq<Header>,
    body: Option<bytes>)

  const EMPTY_BUILDER := Builder(None, None, 200, None, [], None)

  datatype Dec = Dec(kind: Kind, phase: Phase, builder: Builder, contentLength: nat)

  function StartPhase(kind: Kind): Phase {
    if kind == RequestKind then AtMethod else AtVersion
  }

  function Fresh(kind: Kind): Dec {
    Dec(kind, StartPhase(kind), EMPTY_BUILDER, 0)
  }

  /** What the builder already holds in each state; at the end nothing is missing. */
  predicate Wf(d: Dec) {
    var b := d.builder;
    match d.phase
    case AtMethod => d.kind == RequestKind && b == EMPTY_BUILDER
    case AtUri => d.kind == RequestKind && b.verb.Some?
    case AtVersion =>
      if d.kind == RequestKind then b.verb.Some? && b.uri.Some? else b == EMPTY_BUILDER
    case AtStatus => d.kind == ResponseKind
    case AtReason => d.kind == ResponseKind
    case AtHeader => HasStartLine(d)
    case AtBody => HasStartLine(d)
    case AtEnd => HasStartLine(d) && b.body.Some?
    case Failed(_) => true
  }

  predicate HasStartLine(d: Dec) {
    if d.kind == RequestKind then d.builder.verb.Some? && d.builder.uri.Some? else d.builder.reason.Some?
  }

  datatype Step =
    | Wait
    | More(next: Dec, used: nat, message: Option<Message>)
    | Fail(error: DecodeError, skipped: nat)

  // ---------------------------------------------------------------- headers

  /** The header map keeps the spelling of the first key among equal ones. */
  function StoredName(headers: seq<Header>, name: bytes): (r: bytes)
    ensures SameName(r, name)
  {
    if headers == [] then name
    else if SameName(headers[0].name, name) then headers[0].name
    else StoredName(headers[1..], name)
  }

  function Append(headers: seq<Header>, name: bytes, value: bytes): seq<Header> {
    headers + [Header(StoredName(headers, name), value)]
  }

  function Values(headers: seq<Header>, name: bytes): seq<bytes> {
    if headers == [] then []
    else (if SameName(headers[0].name, name) then [headers[0].value] else []) + Values(headers[1..], name)
  }

  /** The typed content length: zero if absent, an error if repeated or not a length. */
  function DeclaredLength(headers: seq<Header>): Option<nat> {
    var values := Values(headers, CONTENT_LENGTH);
    if values == [] then Some(0)
    else if |values| > 1 then None
    else ParseLength(values[0])
  }

  predicate IsTrimmedName(s: bytes, n: nat) {
    n <= |s| && (forall i :: n <= i < |s| ==> IsBlank(s[i])) && (n > 0 ==> !IsBlank(s[n - 1]))
  }

  function TrimName(s: bytes): (r: bytes)
    ensures IsTrimmedName(s, |r|) && r == s[..|r|]
  {
    if s != [] && IsBlank(s[|s| - 1]) then TrimName(s[..|s| - 1]) else s
  }

  function SkipBlanks(s: bytes, i: nat): (r: nat)
    requires i <= |s|
    ensures i <= r <= |s|
    ensures forall j :: i <= j < r ==> IsBlank(s[j])
    ensures r < |s| ==> !IsBlank(s[r])
    decreases |s| - i
  {
    if i < |s| && IsBlank(s[i]) then SkipBlanks(s, i + 1) else i
  }

  /** What is left of a value without its first `n` bytes: blanks, or a line break and the blanks after
      it; no more blanks follow. A line break without blanks stays. */
  predicate IsTrimmedValue(s: bytes, n: nat) {
    var from := if StartsWith(s, CRLF) then 2 else 0;
    && n <= |s|
    && if StartsWith(s, CRLF) && (|s| == 2 || !IsBlank(s[2])) then n == 0
       else from <= n && (forall i :: from <= i < n ==> IsBlank(s[i])) && (n < |s| ==> !IsBlank(s[n]))
  }

  function TrimValue(s: bytes): bytes {
    if StartsWith(s, CRLF) then
      var i := SkipBlanks(s, 2);
      if i == 2 then s else s[i..]
    else s[SkipBlanks(s, 0)..]
  }

  lemma TrimValueRemoves(s: bytes)
    ensures var r := TrimValue(s);
      |r| <= |s| && IsTrimmedValue(s, |s| - |r|) && r == s[|s| - |r|..]
  {
    var i := SkipBlanks(s, if StartsWith(s, CRLF) then 2 else 0);
    assert i <= |s|;
  }

  datatype Scan = ScanWait | ScanTooLong | ScanFound(length: nat)

  /** Looks for the end of a header value among the first `limit + 1` windows. */
  function ScanValue(s: bytes, limit: nat): (r: Scan)
    ensures r.ScanFound? ==> r.length <= limit && r.length + 2 < |s| && IsTerminatorAt(s, r.length)
    ensures r.ScanFound? ==> forall j: nat :: j < r.length ==> !IsTerminatorAt(s, j)
    ensures r.ScanWait? ==>
      (exists i: nat :: i <= limit && i + 2 == |s| && IsTerminatorAt(s, i)) || |s| <= limit
    ensures !r.ScanFound? ==> forall j: nat :: j <= limit && IsTerminatorAt(s, j) ==> j + 2 == |s|
    ensures r.ScanTooLong? ==> limit < |s| && forall j: nat :: j <= limit ==> !IsTerminatorAt(s, j)
  {
    match TerminatorFrom(s, 0, limit + 1)
    case Some(i) => if i + 2 < |s| then ScanFound(i) else ScanWait
    case None => if |s| >= limit + 1 then ScanTooLong else ScanWait
  }

  function StepHeader(cfg: Config, d: Dec, buf: bytes): Step {
    if StartsWith(buf, CRLF) then
      match DeclaredLength(d.builder.headers)
      case None => Fail(InvalidContentLength, 2)
      case Some(length) =>
        if length > cfg.bodyMax then Fail(BodyTooLong, 2)
        else More(d.(phase := AtBody, contentLength := length), 2, None)
    else
      match IndexOf(buf, COLON, cfg.nameMax + 1)
      case None => if |buf| >= cfg.nameMax + 1 then Fail(HeaderNameTooLong, 0) else Wait
      case Some(colon) => StepField(cfg, d, buf[..colon], buf[colon + 1..])
  }

  /** One header, once the colon after its name is found. */
  function StepField(cfg: Config, d: Dec, name: bytes, rest: bytes): (s: Step)
    ensures s.More? ==> s.next == d.(builder := s.next.builder) && s.message.None?
    ensures s.More? ==> s.next.builder == d.builder.(headers := s.next.builder.headers)
    ensures s.More? ==> |name| + 3 <= s.used <= |name| + 1 + |rest|
    ensures s.Fail? ==> s.skipped == 0
  {
    if |d.builder.headers| >= cfg.headerMaxCount then Fail(TooManyHeaders, 0)
    else
      match ScanValue(rest, cfg.valueMax)
      case ScanWait => Wait
      case ScanTooLong => Fail(HeaderValueTooLong, 0)
      case ScanFound(length) =>
        match AddHeader(cfg, d.builder, name, rest[..length])
        case Ok(builder) => More(d.(builder := builder), |name| + 1 + length + 2, None)
        case Err(error) => Fail(error, 0)
  }

  function AddHeader(cfg: Config, builder: Builder, name: bytes, value: bytes): (r: Result<Builder, DecodeError>)
    ensures r.Ok? ==> r.value == builder.(headers := r.value.headers)
  {
    match ParseHeaderName(cfg.standardNames, TrimName(name))
    case Err(error) => Err(InvalidHeaderName(error))
    case Ok(n) =>
      match ParseHeaderValue(TrimValue(value))
      case Err(error) => Err(InvalidHeaderValue(error))
      case Ok(v) => Ok(builder.(headers := Append(builder.headers, n, v)))
  }

  // ---------------------------------------------------------------- start lines

  function StepMethod(cfg: Config, d: Dec, buf: bytes): Step {
    match IndexOf(buf, SP, cfg.methodMax + 1)
    case None => if |buf| >= cfg.methodMax + 1 then Fail(MethodTooLong, 0) else Wait
    case Some(i) =>
      match ParseMethod(buf[..i])
      case Ok(m) => More(d.(phase := AtUri, builder := d.builder.(verb := Some(m))), i + 1, None)
      case Err(error) => Fail(InvalidMethod(error), 0)
  }

  function StepUri(cfg: Config, d: Dec, buf: bytes): Step {
    match IndexOf(buf, SP, cfg.uriMax + 1)
    case None => if |buf| >= cfg.uriMax + 1 then Fail(UriTooLong, 0) else Wait
    case Some(i) =>
      match cfg.parseUri(buf[..i])
      case Some(u) => More(d.(phase := AtVersion, builder := d.builder.(uri := Some(u))), i + 1, None)
      case None => Fail(InvalidUri, 0)
  }

  /** A request ends its version with CRLF, a response with a space. */
  function StepVersion(d: Dec, buf: bytes): Step {
    var width := if d.kind == RequestKind then 10 else 9;
    if |buf| < width then Wait
    else if buf[8..width] != (if d.kind == RequestKind then CRLF else [SP]) then
      Fail(BadVersion(InvalidVersion), 0)
    else
      match ParseVersion(buf[..8])
      case Ok(Rtsp20) =>
        More(d.(phase := if d.kind == RequestKind then AtHeader else AtStatus), width, None)
      case Ok(_) => Fail(UnsupportedVersion, 0)
      case Err(error) => Fail(BadVersion(error), 0)
  }

  function StepStatus(d: Dec, buf: bytes): Step {
    if |buf| < 4 then Wait
    else if buf[3] != SP then Fail(BadStatus(InvalidStatus), 0)
    else
      match ParseStatus(buf[..3])
      case Ok(code) => More(d.(phase := AtReason, builder := d.builder.(status := code)), 4, None)
      case Err(error) => Fail(BadStatus(error), 0)
  }

  function StepReason(cfg: Config, d: Dec, buf: bytes): Step {
    match CrlfFrom(buf, 0, cfg.reasonMax + 2)
    case None => if |buf| >= cfg.reasonMax + 2 then Fail(ReasonPhraseTooLong, 0) else Wait
    case Some(i) =>
      match ParseReason(buf[..i])
      case Ok(r) => More(d.(phase := AtHeader, builder := d.builder.(reason := Some(r))), i + 2, None)
      case Err(error) => Fail(InvalidReason(error), 0)
  }

  // ---------------------------------------------------------------- bodies

  function StepBody(d: Dec, buf: bytes): Step {
    if d.contentLength > |buf| then Wait
    else
      More(d.(phase := AtEnd, builder := d.builder.(body := Some(buf[..d.contentLength]))),
           d.contentLength, None)
  }

  /** A response with a standard status code gets the standard phrase, whatever phrase was read. */
  function Build(cfg: Config, d: Dec): (m: Message)
    requires Wf(d) && d.phase == AtEnd
    ensures m.Request? <==> d.kind == RequestKind
  {
    var b := d.builder;
    if d.kind == RequestKind then Request(b.verb.value, b.uri.value, b.headers, b.body.value)
    else
      var reason := match cfg.canonicalReason(b.status) case Some(r) => r case None => b.reason.value;
      Response(b.status, reason, b.headers, b.body.value)
  }

  function StepEnd(cfg: Config, d: Dec): Step
    requires Wf(d) && d.phase == AtEnd
  {
    More(Dec(d.kind, StartPhase(d.kind), EMPTY_BUILDER, d.contentLength), 0, Some(Build(cfg, d)))
  }

  function DecStep(cfg: Config, d: Dec, buf: bytes): (s: Step)
    requires Wf(d)
    ensures s.More? ==> Wf(s.next) && s.next.kind == d.kind && !s.next.phase.Failed?
    ensures s.More? ==> s.used <= |buf| && (s.used > 0 || Rank(s.next) < Rank(d))
    ensures s.More? ==> (s.message.Some? <==> d.phase == AtEnd)
    ensures s.More? ==> (s.message.Some? <==> s.next.phase == StartPhase(d.kind))
    ensures s.Fail? ==> s.skipped <= |buf| && !d.phase.Failed?
  {
    match d.phase
    case AtMethod => StepMethod(cfg, d, buf)
    case AtUri => StepUri(cfg, d, buf)
    case AtVersion => StepVersion(d, buf)
    case AtStatus => StepStatus(d, buf)
    case AtReason => StepReason(cfg, d, buf)
    case AtHeader => StepHeader(cfg, d, buf)
    case AtBody => StepBody(d, buf)
    case AtEnd => StepEnd(cfg, d)
    case Failed(_) => Wait
  }

  /** Drops on every step that consumes nothing. */
  function Rank(d: Dec): nat {
    match d.phase
    case AtBody => 3
    case AtEnd => 2
    case Failed(_) => 0
    case _ => 1
  }

  // ---------------------------------------------------------------- one call

  datatype Outcome =
    | Complete(message: Message)
    | Incomplete
    | Error(error: DecodeError)

  datatype Call = Call(outcome: Outcome, after: Dec, used: nat)

  /** A call that began `used` bytes earlier. */
  function Later(used: nat, call: Call): Call {
    call.(used := used + call.used)
  }

  /** One call of the decoder on the bytes at hand. */
  function Decode(cfg: Config, d: Dec, buf: bytes): (r: Call)
    requires Wf(d)
    ensures Wf(r.after) && r.after.kind == d.kind && r.used <= |buf|
    ensures r.after.phase != AtEnd
    ensures r.outcome.Error? <==> r.after.phase.Failed?
    ensures r.outcome.Error? ==> r.after.phase == Failed(r.outcome.error)
    ensures r.outcome.Incomplete? && r.after.phase == StartPhase(d.kind) ==> r.after == d
    ensures r.outcome.Complete? ==> r.after == Fresh(d.kind).(contentLength := r.after.contentLength)
    decreases |buf|, Rank(d)
  {
    if d.phase.Failed? then Call(Error(d.phase.error), d, 0)
    else
      match DecStep(cfg, d, buf)
      case Wait => Call(Incomplete, d, 0)
      case Fail(error, skipped) => Call(Error(error), d.(phase := Failed(error)), skipped)
      case More(next, used, message) =>
        if message.Some? then Call(Complete(message.value), next, used)
        else
          var r := Decode(cfg, next, buf[used..]);
          r.(used := used + r.used)
  }

  lemma DecodeUnfolds(cfg: Config, d: Dec, buf: bytes)
    requires Wf(d) && !d.phase.Failed?
    ensures var s, r := DecStep(cfg, d, buf), Decode(cfg, d, buf);
      && (s.Wait? ==> r == Call(Incomplete, d, 0))
      && (s.Fail? ==> r == Call(Error(s.error), d.(phase := Failed(s.error)), s.skipped))
      && (s.More? && s.message.Some? ==> r == Call(Complete(s.message.value), s.next, s.used))
      && (s.More? && s.message.None? ==>
            var later := Decode(cfg, s.next, buf[s.used..]); r == later.(used := s.used + later.used))
  {
    hide DecStep;
  }

  lemma EndStep(cfg: Config, d: Dec, buf: bytes)
    requires Wf(d) && d.phase == AtEnd
    ensures DecStep(cfg, d, buf) ==
      More(Dec(d.kind, StartPhase(d.kind), EMPTY_BUILDER, d.contentLength), 0, Some(Build(cfg, d)))
  {
  }

  /** An error is sticky and consumes nothing. */
  lemma FailedStays(cfg: Config, d: Dec, buf: bytes)
    requires d.phase.Failed?
    ensures Decode(cfg, d, buf) == Call(Error(d.phase.error), d, 0)
  {
  }

  // ---------------------------------------------------------------- the stale length

  /** Equal but for a content length that is not in use. */
  predicate Alike(d: Dec, e: Dec) {
    d == e || (d.phase != AtBody && e == d.(contentLength := e.contentLength))
  }

  predicate AlikeSteps(s: Step, t: Step) {
    match s
    case More(next, used, message) =>
      t.More? && t.used == used && t.message == message && Alike(next, t.next)
    case _ => t == s
  }

  lemma StepAlike(cfg: Config, d: Dec, e: Dec, buf: bytes)
    requires Wf(d) && Wf(e) && Alike(d, e)
    ensures AlikeSteps(DecStep(cfg, d, buf), DecStep(cfg, e, buf))
  {
    hide ParseMethod, ParseVersion, ParseStatus, ParseReason, DeclaredLength, ScanValue;
  }

  lemma {:induction false} DecodeAlike(cfg: Config, d: Dec, e: Dec, buf: bytes)
    requires Wf(d) && Wf(e) && Alike(d, e)
    ensures var r, q := Decode(cfg, d, buf), Decode(cfg, e, buf);
      r.outcome == q.outcome && r.used == q.used && Alike(r.after, q.after)
    decreases |buf|, Rank(d)
  {
    hide DecStep, Decode;
    if d.phase.Failed? {
      FailedStays(cfg, d, buf);
      FailedStays(cfg, e, buf);
    } else {
      DecodeUnfolds(cfg, d, buf);
      DecodeUnfolds(cfg, e, buf);
      StepAlike(cfg, d, e, buf);
      var s, t := DecStep(cfg, d, buf), DecStep(cfg, e, buf);
      if s.More? && s.message.None? {
        DecodeAlike(cfg, s.next, t.next, buf[s.used..]);
      }
    }
  }

  /** After a complete message the decoder reads the next one as a fresh decoder does: the length it
      remembers is overwritten before it is used. */
  lemma CompleteIsFresh(cfg: Config, d: Dec, buf: bytes, later: bytes)
    requires Wf(d) && Decode(cfg, d, buf).outcome.Complete?
    ensures var r, q := Decode(cfg, Decode(cfg, d, buf).after, later), Decode(cfg, Fresh(d.kind), later);
      r.outcome == q.outcome && r.used == q.used && Alike(r.after, q.after)
  {
    hide Decode;
    DecodeAlike(cfg, Decode(cfg, d, buf).after, Fresh(d.kind), later);
  }
}
