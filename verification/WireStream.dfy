/** A stream of messages: which streams are read to their end, and what any stream, however it is cut, can
    make the codec return. */
module WireStreams {
  import opened Bytes
  import opened Decoding
  import opened Streaming
  import opened Codecs
  import opened Wires
  import Chunking
  import RoundTrip

  /** A message in the stream, with the line breaks before it. */
  datatype Stretch = Stretch(breaks: nat, pieces: Pieces)

  function StretchText(x: Stretch): bytes {
    Breaks(x.breaks) + Text(x.pieces)
  }

  function StreamText(xs: seq<Stretch>): bytes {
    if xs == [] then [] else StretchText(xs[0]) + StreamText(xs[1..])
  }

  /** To be taken for a response, the bytes must spell the protocol's name in capitals. */
  ghost predicate IsTold(cfg: Config, p: Pieces, m: Message) {
    Legible(cfg, p, m) && (p.ResponsePieces? ==> StartsWith(p.version, RTSP_SLASH))
  }

  ghost predicate AreTold(cfg: Config, xs: seq<Stretch>, ms: seq<Message>) {
    |xs| == |ms| && forall i :: 0 <= i < |xs| ==> IsTold(cfg, xs[i].pieces, ms[i])
  }

  // ---------------------------------------------------------------- legible streams are read

  lemma RequestIsRouted(cfg: Config, c: Codec, p: Pieces, m: Message, tail: bytes)
    requires RoundTrip.Ready(c) && Legible(cfg, p, m) && p.RequestPieces?
    ensures RouteOf(c, Text(p) + tail) == To(RequestKind)
  {
    hide AreFields, Declares, RouteOf, IsUriWord;
    var rest := p.uri + [SP] + (p.version + CRLF) + FieldsText(p.fields) + CRLF + p.body + tail;
    assert Text(p) + tail == p.verb + [SP] + rest;
    RoundTrip.RequestRoute(c, p.verb, rest);
  }

  lemma ResponseIsRouted(cfg: Config, c: Codec, p: Pieces, m: Message, tail: bytes)
    requires RoundTrip.Ready(c) && IsTold(cfg, p, m) && p.ResponsePieces?
    ensures RouteOf(c, Text(p) + tail) == To(ResponseKind)
  {
    hide AreFields, Declares, IsCode, IsReasonWord;
    var buf := Text(p) + tail;
    var rest := [SP] + (p.code + [SP]) + (p.reason + CRLF) + FieldsText(p.fields) + CRLF + p.body + tail;
    assert buf == p.version + rest;
    assert buf[..5] == p.version[..5] == RTSP_SLASH;
    assert buf[0] == RTSP_SLASH[0];
  }

  lemma StretchIsRead(cfg: Config, c: Codec, x: Stretch, m: Message, tail: bytes) returns (next: Codec)
    requires RoundTrip.Ready(c) && IsTold(cfg, x.pieces, m)
    ensures RoundTrip.Ready(next)
    ensures Run(cfg, c, StretchText(x) + tail) == Prepend(Some(m), Run(cfg, next, tail))
  {
    hide Run, Decode, Legible, Text;
    var p, kind := x.pieces, RoundTrip.KindOf(m);
    var buf := Text(p) + tail;
    KindIsOf(cfg, p, m);
    if p.RequestPieces? {
      RequestIsRouted(cfg, c, p, m, tail);
    } else {
      ResponseIsRouted(cfg, c, p, m, tail);
    }
    var n := Get(c, kind).contentLength;
    assert Get(c, kind) == Fresh(kind).(contentLength := n);
    CompletesWith(cfg, kind, n, p, m, tail);
    next := Put(c, Fresh(kind).(contentLength := |p.body|));
    assert buf[|Text(p)|..] == tail;
    RunFollowsDecode(cfg, c, buf, kind);
    RoundTrip.BreaksAreSkipped(cfg, c, x.breaks, buf);
    assert StretchText(x) + tail == Breaks(x.breaks) + buf;
  }

  lemma KindIsOf(cfg: Config, p: Pieces, m: Message)
    requires Legible(cfg, p, m)
    ensures IsOf(p, RoundTrip.KindOf(m))
  {
  }

  lemma DropStretch(cfg: Config, xs: seq<Stretch>, ms: seq<Message>)
    requires AreTold(cfg, xs, ms) && xs != []
    ensures AreTold(cfg, xs[1..], ms[1..]) && IsTold(cfg, xs[0].pieces, ms[0])
  {
    hide IsTold;
    assert forall i :: 0 <= i < |xs[1..]| ==> xs[1..][i] == xs[i + 1] && ms[1..][i] == ms[i + 1];
  }

  lemma {:induction false} LegibleIsRead(cfg: Config, c: Codec, xs: seq<Stretch>, ms: seq<Message>, breaks: nat)
    requires RoundTrip.Ready(c) && AreTold(cfg, xs, ms)
    ensures var r := Run(cfg, c, StreamText(xs) + Breaks(breaks));
      r.messages == ms && r.rest == [] && RoundTrip.Ready(r.codec)
    decreases |xs|
  {
    hide Run, AreTold, IsTold, StretchText;
    if xs == [] {
      NoneTold(cfg, ms);
      assert [] + Breaks(breaks) == Breaks(breaks) + [];
      RoundTrip.BreaksAreSkipped(cfg, c, breaks, []);
      RoundTrip.NothingToRun(cfg, c);
    } else {
      DropStretch(cfg, xs, ms);
      SameCount(cfg, xs, ms);
      var tail := StreamText(xs[1..]) + Breaks(breaks);
      assert StreamText(xs) + Breaks(breaks) == StretchText(xs[0]) + tail;
      var next := StretchIsRead(cfg, c, xs[0], ms[0], tail);
      LegibleIsRead(cfg, next, xs[1..], ms[1..], breaks);
      assert [ms[0]] + ms[1..] == ms;
    }
  }

  lemma NoneTold(cfg: Config, ms: seq<Message>)
    requires AreTold(cfg, [], ms)
    ensures ms == []
  {
  }

  lemma SameCount(cfg: Config, xs: seq<Stretch>, ms: seq<Message>)
    requires AreTold(cfg, xs, ms)
    ensures |xs| == |ms|
  {
  }

  // ---------------------------------------------------------------- what is returned is legible

  /** The decoder that the codec is in the middle of; between messages the one for responses. */
  function Active(c: Codec): Dec {
    if c.request.phase != AtMethod then c.request else c.response
  }

  predicate IsBroken(c: Codec) {
    Active(c).phase.Failed?
  }

  ghost predicate Underway(cfg: Config, c: Codec, p: Pieces) {
    && WfCodec(c) && SoFar(cfg, Active(c), p)
    && (c.request.phase != AtMethod ==> c.response.phase == AtVersion)
    && (c.request.phase == AtMethod && c.response.phase != AtVersion ==> StartsWith(p.version, RTSP_SLASH))
  }

  function Part(c: Codec, p: Pieces): bytes {
    TextUpTo(Active(c).phase, p)
  }

  const NOTHING := ResponsePieces([], [], [], [], [])

  lemma IdleIsUnderway(cfg: Config, c: Codec, p: Pieces)
    requires WfCodec(c) && IsIdle(c)
    ensures Underway(cfg, c, NOTHING) && Part(c, NOTHING) == []
    ensures Underway(cfg, c, p) ==> Part(c, p) == []
  {
  }

  lemma BreaksSnoc(n: nat)
    ensures Breaks(n) + CRLF == Breaks(n + 1)
  {
    if n == 0 {
      assert [] + CRLF == CRLF + [];
    } else {
      BreaksSnoc(n - 1);
      assert CRLF + Breaks(n - 1) + CRLF == CRLF + (Breaks(n - 1) + CRLF);
    }
  }

  /** A step in the middle of a message. */
  lemma StepIsSound(cfg: Config, c: Codec, p: Pieces, buf: bytes) returns (q: Pieces)
    requires Underway(cfg, c, p) && !IsIdle(c) && Active(c).phase != AtEnd
    requires DecStep(cfg, Active(c), buf).More?
    ensures var s := DecStep(cfg, Active(c), buf); var next := Put(c, s.next);
      Underway(cfg, next, q) && Part(next, q) == Part(c, p) + buf[..s.used]
  {
    hide DecStep, SoFar, TextUpTo;
    var d := Active(c);
    q := StepReads(cfg, d, p, buf);
    var s := DecStep(cfg, d, buf);
    StepLeavesStart(cfg, d, p, q, buf);
  }

  lemma VersionInFront(cfg: Config, d: Dec, p: Pieces)
    requires SoFar(cfg, d, p) && d.kind == ResponseKind && d.phase !in {AtVersion, AtMethod, AtUri}
    ensures var t := TextUpTo(d.phase, p); |t| >= 8 && t[..8] == p.version
  {
    hide IsCode, IsReasonWord, AreFields, Declares;
    assert forall rest: bytes :: |p.version + rest| >= 8 && (p.version + rest)[..8] == p.version;
    if d.phase in {AtHeader, AtBody, AtEnd} {
      LineInFront(p);
    }
  }

  lemma LineInFront(p: Pieces)
    requires p.ResponsePieces? && |p.version| == 8
    ensures forall rest: bytes :: |LineText(p) + rest| >= 8 && (LineText(p) + rest)[..8] == p.version
  {
    assert LineText(p)[..8] == p.version;
    assert forall rest: bytes :: (LineText(p) + rest)[..8] == LineText(p)[..8];
  }

  /** The version of a response is not changed by what comes after it. */
  lemma StepLeavesStart(cfg: Config, d: Dec, p: Pieces, q: Pieces, buf: bytes)
    requires Wf(d) && SoFar(cfg, d, p) && d.phase != AtEnd && d.phase != StartPhase(d.kind)
    requires DecStep(cfg, d, buf).More?
    requires var s := DecStep(cfg, d, buf);
      SoFar(cfg, s.next, q) && TextUpTo(s.next.phase, q) == TextUpTo(d.phase, p) + buf[..s.used]
    ensures d.kind == ResponseKind ==> q.version == p.version
    ensures DecStep(cfg, d, buf).next.phase != StartPhase(d.kind)
  {
    hide DecStep, SoFar, TextUpTo;
    if d.kind == ResponseKind {
      SoFarPhases(cfg, d, p);
      VersionInFront(cfg, d, p);
      SoFarPhases(cfg, DecStep(cfg, d, buf).next, q);
      VersionInFront(cfg, DecStep(cfg, d, buf).next, q);
    }
  }

  lemma SoFarPhases(cfg: Config, d: Dec, p: Pieces)
    requires SoFar(cfg, d, p)
    ensures d.kind == ResponseKind ==> d.phase !in {AtMethod, AtUri} && p.ResponsePieces?
  {
  }

  /** The first step of a message. */
  lemma FirstStepIsSound(cfg: Config, c: Codec, kind: Kind, buf: bytes) returns (q: Pieces)
    requires WfCodec(c) && IsIdle(c) && RouteOf(c, buf) == To(kind) && DecStep(cfg, Get(c, kind), buf).More?
    ensures var s := DecStep(cfg, Get(c, kind), buf); var next := Put(c, s.next);
      Underway(cfg, next, q) && Part(next, q) == buf[..s.used] && !IsIdle(next)
  {
    hide DecStep, SoFar, TextUpTo;
    var d := Get(c, kind);
    var start := FreshReadsNothing(cfg, kind, d.contentLength);
    q := LineStep(cfg, d, start, buf);
    var s := DecStep(cfg, d, buf);
    assert [] + buf[..s.used] == buf[..s.used];
    FirstPhase(cfg, d, buf);
    if kind == ResponseKind {
      SoFarPhases(cfg, s.next, q);
      VersionInFront(cfg, s.next, q);
      assert q.version[..5] == buf[..5];
    }
  }

  lemma FirstPhase(cfg: Config, d: Dec, buf: bytes)
    requires Wf(d) && d.phase == StartPhase(d.kind) && DecStep(cfg, d, buf).More?
    ensures var s := DecStep(cfg, d, buf);
      && s.next.phase == (if d.kind == RequestKind then AtUri else AtStatus)
      && s.message.None? && (d.kind == ResponseKind ==> s.used >= 9)
  {
  }

  lemma CodecSteps(cfg: Config, c: Codec, buf: bytes, kind: Kind)
    requires WfCodec(c) && RouteOf(c, buf) == To(kind)
    ensures var s, t := DecStep(cfg, Get(c, kind), buf), CodecStep(cfg, c, buf);
      && (s.Wait? ==> t == Stuck)
      && (s.More? ==> t == Did(Put(c, s.next), s.used, s.message))
      && (s.Fail? ==> t == Did(Put(c, Get(c, kind).(phase := Failed(s.error))), s.skipped, None))
  {
    hide DecStep;
  }

  /** What a run returned, by the stretches of the stream, and where it is now: line breaks and the beginning
      of a message, with the bytes not yet read behind them, unless an error has stopped the run. */
  datatype Account = Account(told: seq<Stretch>, breaks: nat, pieces: Pieces, left: bytes)

  ghost predicate Accounts(cfg: Config, whole: bytes, r: Progress, a: Account) {
    && AreTold(cfg, a.told, r.messages) && whole == StreamText(a.told) + a.left
    && (IsBroken(r.codec)
        || (Underway(cfg, r.codec, a.pieces) && a.left == Breaks(a.breaks) + Part(r.codec, a.pieces) + r.rest))
  }

  lemma NothingYet(cfg: Config, c: Codec, b: nat, p: Pieces, buf: bytes, r: Progress)
    requires r.messages == [] && (IsBroken(r.codec) || (r == Progress(c, buf, []) && Underway(cfg, c, p)))
    ensures var whole := Breaks(b) + Part(c, p) + buf; Accounts(cfg, whole, r, Account([], b, p, whole))
  {
    hide Underway;
    var whole := Breaks(b) + Part(c, p) + buf;
    assert [] + whole == whole;
  }

  lemma OneTold(cfg: Config, x: Stretch, m: Message, rest: bytes, r: Progress, a: Account)
    requires IsTold(cfg, x.pieces, m) && Accounts(cfg, rest, r, a)
    ensures Accounts(cfg, StretchText(x) + rest, Prepend(Some(m), r), a.(told := [x] + a.told))
  {
    hide IsTold, StretchText, Underway;
    var xs := a.told;
    assert ([x] + xs)[1..] == xs;
    assert StretchText(x) + (StreamText(xs) + a.left) == (StretchText(x) + StreamText(xs)) + a.left;
  }

  lemma CodecStepIs(cfg: Config, c: Codec, buf: bytes)
    requires WfCodec(c)
    ensures RouteOf(c, buf).TooShort? ==> CodecStep(cfg, c, buf) == Stuck
    ensures RouteOf(c, buf).Skip? ==> CodecStep(cfg, c, buf) == Did(c, 2, None) && IsIdle(c) && StartsWith(buf, CRLF)
  {
  }

  lemma RouteIsActive(cfg: Config, c: Codec, p: Pieces, buf: bytes, kind: Kind)
    requires Underway(cfg, c, p) && RouteOf(c, buf) == To(kind)
    ensures !IsIdle(c) ==> Active(c) == Get(c, kind)
    ensures kind == RequestKind || c.request.phase == AtMethod
    ensures IsIdle(c) ==> Get(c, kind).phase == StartPhase(kind)
  {
  }

  /** A step that waits, or that fails: it is the last one. */
  lemma LastStep(cfg: Config, c: Codec, p: Pieces, buf: bytes, kind: Kind)
    requires Underway(cfg, c, p) && RouteOf(c, buf) == To(kind) && !DecStep(cfg, Get(c, kind), buf).More?
    ensures var r := Run(cfg, c, buf);
      r.messages == [] && (IsBroken(r.codec) || r == Progress(c, buf, []))
  {
    hide Run, DecStep, CodecStep, SoFar;
    Chunking.RunUnfolds(cfg, c, buf);
    CodecSteps(cfg, c, buf, kind);
    var d := Get(c, kind);
    var s := DecStep(cfg, d, buf);
    if s.Fail? {
      RouteIsActive(cfg, c, p, buf, kind);
      Chunking.FailedIsStuck(cfg, Put(c, d.(phase := Failed(s.error))), kind, buf[s.skipped..]);
    }
  }

  /** A step within a message. */
  lemma MiddleStep(cfg: Config, c: Codec, p: Pieces, buf: bytes, kind: Kind) returns (next: Codec, used: nat, q: Pieces)
    requires Underway(cfg, c, p) && RouteOf(c, buf) == To(kind)
    requires Get(c, kind).phase != AtEnd && DecStep(cfg, Get(c, kind), buf).More?
    ensures used <= |buf| && CodecStep(cfg, c, buf) == Did(next, used, None)
    ensures Underway(cfg, next, q) && Part(next, q) == Part(c, p) + buf[..used]
  {
    hide DecStep, CodecStep, SoFar, TextUpTo;
    CodecSteps(cfg, c, buf, kind);
    RouteIsActive(cfg, c, p, buf, kind);
    var s := DecStep(cfg, Get(c, kind), buf);
    next, used := Put(c, s.next), s.used;
    if IsIdle(c) {
      q := FirstStepIsSound(cfg, c, kind, buf);
      IdleIsUnderway(cfg, c, p);
      assert [] + buf[..used] == buf[..used];
    } else {
      q := StepIsSound(cfg, c, p, buf);
    }
  }

  /** The step that returns a message. */
  lemma MessageStep(cfg: Config, c: Codec, p: Pieces, buf: bytes, kind: Kind) returns (next: Codec, m: Message)
    requires Underway(cfg, c, p) && RouteOf(c, buf) == To(kind) && Get(c, kind).phase == AtEnd
    ensures CodecStep(cfg, c, buf) == Did(next, 0, Some(m))
    ensures Underway(cfg, next, NOTHING) && Part(next, NOTHING) == []
    ensures IsTold(cfg, p, m) && Part(c, p) == Text(p)
  {
    hide DecStep, CodecStep, SoFar, Build;
    CodecSteps(cfg, c, buf, kind);
    RouteIsActive(cfg, c, p, buf, kind);
    var d := Get(c, kind);
    EndStep(cfg, d, buf);
    EndIsLegible(cfg, d, p);
    next, m := Put(c, DecStep(cfg, d, buf).next), Build(cfg, d);
    IdleIsUnderway(cfg, next, NOTHING);
    EndOf(cfg, c, p, kind);
  }

  lemma EndOf(cfg: Config, c: Codec, p: Pieces, kind: Kind)
    requires Underway(cfg, c, p) && Active(c) == Get(c, kind) && Active(c).phase == AtEnd
    ensures p.ResponsePieces? ==> StartsWith(p.version, RTSP_SLASH)
  {
  }

  lemma {:induction false} RunIsSound(cfg: Config, c: Codec, b: nat, p: Pieces, buf: bytes) returns (a: Account)
    requires Underway(cfg, c, p)
    ensures Accounts(cfg, Breaks(b) + Part(c, p) + buf, Run(cfg, c, buf), a)
    decreases |buf|, CodecRank(c)
  {
    assert WfCodec(c);
    hide Run, DecStep, CodecStep, Underway, Part, Accounts, Breaks, RouteOf, IsTold, StretchText;
    Chunking.RunUnfolds(cfg, c, buf);
    var whole := Breaks(b) + Part(c, p) + buf;
    match RouteOf(c, buf)
    case TooShort =>
      CodecStepIs(cfg, c, buf);
      NothingYet(cfg, c, b, p, buf, Run(cfg, c, buf));
      a := Account([], b, p, whole);
    case Skip =>
      CodecStepIs(cfg, c, buf);
      IdleIsUnderway(cfg, c, p);
      BreakGoesOn(b, buf);
      a := RunIsSound(cfg, c, b + 1, p, buf[2..]);
    case To(kind) => a := DecoderIsSound(cfg, c, b, p, buf, kind);
  }

  lemma {:induction false} DecoderIsSound(cfg: Config, c: Codec, b: nat, p: Pieces, buf: bytes, kind: Kind)
    returns (a: Account)
    requires Underway(cfg, c, p) && RouteOf(c, buf) == To(kind)
    ensures Accounts(cfg, Breaks(b) + Part(c, p) + buf, Run(cfg, c, buf), a)
    decreases |buf|, CodecRank(c), 0
  {
    assert WfCodec(c);
    hide Run, DecStep, CodecStep, Underway, Part, Accounts, Breaks, RouteOf, IsTold, StretchText;
    Chunking.RunUnfolds(cfg, c, buf);
    var whole := Breaks(b) + Part(c, p) + buf;
    if !DecStep(cfg, Get(c, kind), buf).More? {
      LastStep(cfg, c, p, buf, kind);
      NothingYet(cfg, c, b, p, buf, Run(cfg, c, buf));
      a := Account([], b, p, whole);
    } else if Get(c, kind).phase != AtEnd {
      var next, used, p' := MiddleStep(cfg, c, p, buf, kind);
      Regroup(Breaks(b), Part(c, p), buf, used);
      a := RunIsSound(cfg, next, b, p', buf[used..]);
    } else {
      var next, m := MessageStep(cfg, c, p, buf, kind);
      var later := RunIsSound(cfg, next, 0, NOTHING, buf);
      a := OneMore(cfg, c, b, p, buf, next, m, later);
    }
  }

  lemma BreakGoesOn(b: nat, buf: bytes)
    requires StartsWith(buf, CRLF)
    ensures Breaks(b) + [] + buf == Breaks(b + 1) + [] + buf[2..]
  {
    BreaksSnoc(b);
    hide Breaks;
    assert buf == CRLF + buf[2..];
    assert Breaks(b) + (CRLF + buf[2..]) == (Breaks(b) + CRLF) + buf[2..];
  }

  lemma Regroup(x: bytes, y: bytes, buf: bytes, n: nat)
    requires n <= |buf|
    ensures x + y + buf == x + (y + buf[..n]) + buf[n..]
  {
  }

  lemma OneMore(cfg: Config, c: Codec, b: nat, p: Pieces, buf: bytes, next: Codec, m: Message, later: Account)
    returns (a: Account)
    requires WfCodec(c) && WfCodec(next) && IsTold(cfg, p, m) && Part(c, p) == Text(p) && Part(next, NOTHING) == []
    requires Run(cfg, c, buf) == Prepend(Some(m), Run(cfg, next, buf))
    requires Accounts(cfg, Breaks(0) + Part(next, NOTHING) + buf, Run(cfg, next, buf), later)
    ensures Accounts(cfg, Breaks(b) + Part(c, p) + buf, Run(cfg, c, buf), a)
  {
    hide Run, Part, Accounts, IsTold, StretchText, Text;
    NoBreaks(buf);
    OneTold(cfg, Stretch(b, p), m, buf, Run(cfg, next, buf), later);
    StretchIs(b, p);
    a := later.(told := [Stretch(b, p)] + later.told);
  }

  lemma NoBreaks(buf: bytes)
    ensures Breaks(0) + [] + buf == buf && buf[0..] == buf
  {
  }

  lemma StretchIs(b: nat, p: Pieces)
    ensures StretchText(Stretch(b, p)) == Breaks(b) + Text(p)
  {
  }

  /** Once an error has stopped the codec, nothing more is returned. */
  lemma {:induction false} BrokenStays(cfg: Config, r: Progress, chunks: seq<bytes>)
    requires WfCodec(r.codec) && IsBroken(r.codec)
    ensures Feed(cfg, r, chunks).messages == r.messages && IsBroken(Feed(cfg, r, chunks).codec)
    decreases |chunks|
  {
    hide Run;
    if chunks != [] {
      var kind := if r.codec.request.phase != AtMethod then RequestKind else ResponseKind;
      Chunking.FailedIsStuck(cfg, r.codec, kind, r.rest + chunks[0]);
      assert r.messages + [] == r.messages;
      BrokenStays(cfg, Resume(cfg, r, chunks[0]), chunks[1..]);
    }
  }

  lemma MoreTold(cfg: Config, whole: bytes, r: Progress, a: Account, rest: bytes, later: Progress, b: Account)
    requires Accounts(cfg, whole, r, a) && Accounts(cfg, a.left + rest, later, b)
    ensures Accounts(cfg, whole + rest, later.(messages := r.messages + later.messages), b.(told := a.told + b.told))
  {
    StreamJoins(a.told, b.told);
    hide Underway, IsTold, StreamText;
    assert StreamText(a.told) + a.left + rest == StreamText(a.told) + (a.left + rest);
    assert StreamText(a.told) + (StreamText(b.told) + b.left) == StreamText(a.told) + StreamText(b.told) + b.left;
  }

  lemma {:induction false} StreamJoins(xs: seq<Stretch>, ys: seq<Stretch>)
    ensures StreamText(xs + ys) == StreamText(xs) + StreamText(ys)
    decreases |xs|
  {
    hide StretchText;
    if xs == [] {
      assert xs + ys == ys;
    } else {
      assert (xs + ys)[1..] == xs[1..] + ys;
      StreamJoins(xs[1..], ys);
    }
  }

  /** A read more of the stream: the messages that it brings, and what is left then. */
  lemma ResumeIsSound(cfg: Config, whole: bytes, r: Progress, a: Account, chunk: bytes) returns (b: Account)
    requires WfCodec(r.codec) && Accounts(cfg, whole, r, a)
    ensures Accounts(cfg, whole + chunk, Resume(cfg, r, chunk), b)
  {
    hide Run, Underway, Part, Breaks, AreTold, StreamText;
    if IsBroken(r.codec) {
      BrokenStays(cfg, r, [chunk]);
      assert [chunk][1..] == [];
      assert Feed(cfg, r, [chunk]) == Resume(cfg, r, chunk);
      b := a.(left := a.left + chunk);
      assert StreamText(a.told) + a.left + chunk == StreamText(a.told) + (a.left + chunk);
    } else {
      var later := RunIsSound(cfg, r.codec, a.breaks, a.pieces, r.rest + chunk);
      assert Breaks(a.breaks) + Part(r.codec, a.pieces) + (r.rest + chunk) == a.left + chunk;
      MoreTold(cfg, whole, r, a, chunk, Run(cfg, r.codec, r.rest + chunk), later);
      b := later.(told := a.told + later.told);
    }
  }

  lemma {:induction false} FeedIsSound(cfg: Config, whole: bytes, r: Progress, a: Account, chunks: seq<bytes>)
    returns (b: Account)
    requires WfCodec(r.codec) && Accounts(cfg, whole, r, a)
    ensures Accounts(cfg, whole + Concat(chunks), Feed(cfg, r, chunks), b)
    decreases |chunks|
  {
    hide Run, Accounts;
    if chunks == [] {
      b := a;
      assert whole + [] == whole;
    } else {
      var next := ResumeIsSound(cfg, whole, r, a, chunks[0]);
      b := FeedIsSound(cfg, whole + chunks[0], Resume(cfg, r, chunks[0]), next, chunks[1..]);
      assert whole + chunks[0] + Concat(chunks[1..]) == whole + (chunks[0] + Concat(chunks[1..]));
    }
  }

  lemma StartIsSound(cfg: Config)
    ensures Accounts(cfg, [], START, Account([], 0, NOTHING, []))
  {
  }

  /** However a stream is cut, and whatever is in it: the messages returned are the readings of legible texts
      that follow each other in the stream, with nothing but line breaks between them. */
  lemma ReturnedIsLegible(cfg: Config, chunks: seq<bytes>) returns (xs: seq<Stretch>, left: bytes)
    ensures Concat(chunks) == StreamText(xs) + left && AreTold(cfg, xs, Feed(cfg, START, chunks).messages)
  {
    hide Feed, AreTold, StreamText, Underway;
    StartIsSound(cfg);
    var a := FeedIsSound(cfg, [], START, Account([], 0, NOTHING, []), chunks);
    assert [] + Concat(chunks) == Concat(chunks);
    xs, left := a.told, a.left;
  }

  /** A stream that is there as a whole is read to its end as these messages if and only if it is their
      legible texts with line breaks between them and behind the last. */
  lemma StreamExact(cfg: Config, s: bytes, ms: seq<Message>)
    ensures var r := Run(cfg, INITIAL, s);
      r.messages == ms && r.rest == [] && RoundTrip.Ready(r.codec) <==>
        exists xs, breaks: nat :: s == StreamText(xs) + Breaks(breaks) && AreTold(cfg, xs, ms)
  {
    hide Run, AreTold, StreamText, Breaks;
    var r := Run(cfg, INITIAL, s);
    if r.messages == ms && r.rest == [] && RoundTrip.Ready(r.codec) {
      IdleIsUnderway(cfg, INITIAL, NOTHING);
      var a := RunIsSound(cfg, INITIAL, 0, NOTHING, s);
      NoBreaks(s);
      IdleIsUnderway(cfg, r.codec, a.pieces);
      assert Breaks(a.breaks) + [] + [] == Breaks(a.breaks);
    }
    forall xs, breaks: nat | s == StreamText(xs) + Breaks(breaks) && AreTold(cfg, xs, ms)
      ensures r.messages == ms && r.rest == [] && RoundTrip.Ready(r.codec)
    {
      LegibleIsRead(cfg, INITIAL, xs, ms, breaks);
    }
  }
}
