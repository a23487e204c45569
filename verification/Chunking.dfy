/** When the cuts between reads do not matter. */
module Chunking {
  import opened Bytes
  import opened Syntax
  import opened Decoding
  import opened Streaming

  // ---------------------------------------------------------------- the three boundaries

  predicate FirstTerminatorAt(s: bytes, i: nat) {
    IsTerminatorAt(s, i) && forall j: nat :: j < i ==> !IsTerminatorAt(s, j)
  }

  /** A header value that ends at the limit itself. */
  predicate ValueAtLimit(cfg: Config, d: Dec, buf: bytes) {
    var colon := IndexOf(buf, COLON, cfg.nameMax + 1);
    && d.phase == AtHeader
    && !StartsWith(buf, CRLF)
    && colon.Some?
    && |d.builder.headers| < cfg.headerMaxCount
    && FirstTerminatorAt(buf[colon.value + 1..], cfg.valueMax)
  }

  /** A reason phrase one byte longer than the limit. */
  predicate ReasonPastLimit(cfg: Config, d: Dec, buf: bytes) {
    d.phase == AtReason && CrlfFrom(buf, 0, cfg.reasonMax + 2) == Some(cfg.reasonMax + 1)
  }

  /** The end of the headers under a limit that allows no header name. */
  predicate NamelessEnd(cfg: Config, d: Dec, buf: bytes) {
    d.phase == AtHeader && cfg.nameMax == 0 && StartsWith(buf, CRLF)
  }

  predicate DecBoundary(cfg: Config, d: Dec, buf: bytes) {
    ValueAtLimit(cfg, d, buf) || ReasonPastLimit(cfg, d, buf) || NamelessEnd(cfg, d, buf)
  }

  /** No step of the run of `buf` meets a boundary. */
  predicate BoundaryFree(cfg: Config, c: Codec, buf: bytes)
    requires WfCodec(c)
    decreases |buf|, CodecRank(c)
  {
    && (RouteOf(c, buf).To? ==> !DecBoundary(cfg, Get(c, RouteOf(c, buf).kind), buf))
    && match CodecStep(cfg, c, buf)
       case Stuck => true
       case Did(next, used, _) => BoundaryFree(cfg, next, buf[used..])
  }

  // ---------------------------------------------------------------- steps ignore later bytes

  lemma ScanExtends(s: bytes, t: bytes, limit: nat)
    ensures ScanValue(s, limit).ScanFound? ==> ScanValue(s + t, limit) == ScanValue(s, limit)
    ensures ScanValue(s, limit).ScanTooLong? ==>
      ScanValue(s + t, limit).ScanTooLong? || FirstTerminatorAt(s + t, limit)
  {
    var u := s + t;
    assert forall j: nat :: IsTerminatorAt(s, j) && j + 2 < |s| ==> IsTerminatorAt(u, j);
    assert forall j: nat :: IsTerminatorAt(u, j) && j + 1 < |s| ==> IsTerminatorAt(s, j);
    var a, b := ScanValue(s, limit), ScanValue(u, limit);
    if a.ScanFound? {
      assert IsTerminatorAt(u, a.length);
    }
  }

  lemma IndexExtends(p: bytes, q: bytes, b: byte, limit: nat)
    ensures var r := IndexOf(p, b, limit);
      r.Some? || |p| >= limit ==> IndexOf(p + q, b, limit) == r && (r.Some? ==> (p + q)[..r.value] == p[..r.value])
  {
    var r, r' := IndexOf(p, b, limit), IndexOf(p + q, b, limit);
    if r.Some? {
      assert (p + q)[r.value] == b;
      assert (p + q)[..r.value] == p[..r.value];
    }
  }

  lemma CrlfExtends(p: bytes, q: bytes, limit: nat)
    ensures var r := CrlfFrom(p, 0, limit);
      r.Some? ==> CrlfFrom(p + q, 0, limit) == r && (p + q)[..r.value] == p[..r.value]
    ensures |p| >= limit && CrlfFrom(p, 0, limit).None? ==>
      CrlfFrom(p + q, 0, limit).None? || CrlfFrom(p + q, 0, limit) == Some(limit - 1)
  {
    var s := p + q;
    assert forall j: nat :: IsCrlfAt(p, j) ==> IsCrlfAt(s, j);
    assert forall j: nat :: IsCrlfAt(s, j) && j + 1 < |p| ==> IsCrlfAt(p, j);
    var r := CrlfFrom(p, 0, limit);
    if r.Some? {
      assert IsCrlfAt(s, r.value);
      assert s[..r.value] == p[..r.value];
    }
  }

  /** A step that did not wait is taken whatever follows, away from the boundaries. */
  lemma StepExtends(cfg: Config, d: Dec, p: bytes, q: bytes)
    requires Wf(d)
    requires DecStep(cfg, d, p) != Wait
    requires !DecBoundary(cfg, d, p + q)
    ensures DecStep(cfg, d, p + q) == DecStep(cfg, d, p)
  {
    hide StepHeader, ParseMethod, ParseVersion, ParseStatus, ParseReason;
    var s := p + q;
    match d.phase
    case AtHeader => HeaderExtends(cfg, d, p, q);
    case AtReason => CrlfExtends(p, q, cfg.reasonMax + 2);
    case AtMethod => IndexExtends(p, q, SP, cfg.methodMax + 1);
    case AtUri => IndexExtends(p, q, SP, cfg.uriMax + 1);
    case AtVersion =>
      assert s[..8] == p[..8] && s[8..9] == p[8..9];
      assert |p| >= 10 ==> s[8..10] == p[8..10];
    case AtStatus => assert s[..3] == p[..3];
    case AtBody => assert s[..d.contentLength] == p[..d.contentLength];
    case _ =>
  }

  lemma HeaderExtends(cfg: Config, d: Dec, p: bytes, q: bytes)
    requires Wf(d) && d.phase == AtHeader
    requires StepHeader(cfg, d, p) != Wait
    requires !ValueAtLimit(cfg, d, p + q) && !NamelessEnd(cfg, d, p + q)
    ensures StepHeader(cfg, d, p + q) == StepHeader(cfg, d, p)
  {
    hide StepField, DeclaredLength, FirstTerminatorAt;
    if StartsWith(p, CRLF) {
      assert (p + q)[..2] == p[..2];
    } else if IndexOf(p, COLON, cfg.nameMax + 1).None? {
      StaysHeader(cfg, p, q);
      IndexExtends(p, q, COLON, cfg.nameMax + 1);
    } else {
      NamedHeaderExtends(cfg, d, p, q, IndexOf(p, COLON, cfg.nameMax + 1).value);
    }
  }

  lemma HeaderIsField(cfg: Config, d: Dec, buf: bytes, colon: nat)
    requires !StartsWith(buf, CRLF) && IndexOf(buf, COLON, cfg.nameMax + 1) == Some(colon)
    ensures StepHeader(cfg, d, buf) == StepField(cfg, d, buf[..colon], buf[colon + 1..])
  {
    hide StepField, DeclaredLength, IndexOf, StartsWith;
  }

  lemma NamedHeaderExtends(cfg: Config, d: Dec, p: bytes, q: bytes, colon: nat)
    requires Wf(d) && d.phase == AtHeader
    requires !StartsWith(p, CRLF) && IndexOf(p, COLON, cfg.nameMax + 1) == Some(colon)
    requires StepField(cfg, d, p[..colon], p[colon + 1..]) != Wait
    requires !ValueAtLimit(cfg, d, p + q) && !NamelessEnd(cfg, d, p + q)
    ensures StepHeader(cfg, d, p + q) == StepHeader(cfg, d, p)
  {
    hide StepField, StepHeader, FirstTerminatorAt;
    StaysHeader(cfg, p, q);
    IndexExtends(p, q, COLON, cfg.nameMax + 1);
    assert (p + q)[colon + 1..] == p[colon + 1..] + q;
    HeaderIsField(cfg, d, p, colon);
    HeaderIsField(cfg, d, p + q, colon);
    FieldExtends(cfg, d, p[..colon], p[colon + 1..], q);
  }

  lemma StaysHeader(cfg: Config, p: bytes, q: bytes)
    requires !StartsWith(p, CRLF)
    requires IndexOf(p, COLON, cfg.nameMax + 1).Some? || |p| > cfg.nameMax
    requires cfg.nameMax == 0 ==> !StartsWith(p + q, CRLF)
    ensures !StartsWith(p + q, CRLF)
  {
    assert |p| >= 2 ==> (p + q)[..2] == p[..2];
    assert |p| >= 1 ==> (p + q)[0] == p[0];
  }

  lemma FieldExtends(cfg: Config, d: Dec, name: bytes, rest: bytes, q: bytes)
    requires StepField(cfg, d, name, rest) != Wait
    requires |d.builder.headers| < cfg.headerMaxCount ==> !FirstTerminatorAt(rest + q, cfg.valueMax)
    ensures StepField(cfg, d, name, rest + q) == StepField(cfg, d, name, rest)
  {
    ScanExtends(rest, q, cfg.valueMax);
    match ScanValue(rest, cfg.valueMax)
    case ScanFound(length) => assert (rest + q)[..length] == rest[..length];
    case _ =>
  }

  lemma CodecStepExtends(cfg: Config, c: Codec, p: bytes, q: bytes)
    requires WfCodec(c)
    requires CodecStep(cfg, c, p).Did?
    requires RouteOf(c, p + q).To? ==> !DecBoundary(cfg, Get(c, RouteOf(c, p + q).kind), p + q)
    ensures CodecStep(cfg, c, p + q) == CodecStep(cfg, c, p)
  {
    var s := p + q;
    assert RouteOf(c, s) == RouteOf(c, p) by {
      assert |p| >= 2 ==> s[..2] == p[..2];
      assert |p| >= 5 ==> s[..5] == p[..5];
    }
    if RouteOf(c, p).To? {
      StepExtends(cfg, Get(c, RouteOf(c, p).kind), p, q);
    }
  }

  lemma RunUnfolds(cfg: Config, c: Codec, s: bytes)
    requires WfCodec(c)
    ensures var t, r := CodecStep(cfg, c, s), Run(cfg, c, s);
      && (t.Did? ==> r == Prepend(t.message, Run(cfg, t.codec, s[t.used..])))
      && (t.Stuck? ==> r == Progress(c, s, []))
  {
    hide CodecStep;
  }

  lemma BoundaryFreeUnfolds(cfg: Config, c: Codec, s: bytes)
    requires WfCodec(c) && BoundaryFree(cfg, c, s)
    ensures RouteOf(c, s).To? ==> !DecBoundary(cfg, Get(c, RouteOf(c, s).kind), s)
    ensures var t := CodecStep(cfg, c, s); t.Did? ==> BoundaryFree(cfg, t.codec, s[t.used..])
  {
    hide CodecStep, DecBoundary, RouteOf;
  }

  lemma ResumePrepends(cfg: Config, message: Option<Message>, r: Progress, q: bytes)
    requires WfCodec(r.codec)
    ensures Resume(cfg, Prepend(message, r), q) == Prepend(message, Resume(cfg, r, q))
  {
    hide Run;
    if message.Some? {
      var s := Run(cfg, r.codec, r.rest + q);
      assert [message.value] + r.messages + s.messages == [message.value] + (r.messages + s.messages);
    }
  }

  /** Reading `p` first and `q` later is reading them together. */
  lemma {:induction false} RunSplits(cfg: Config, c: Codec, p: bytes, q: bytes)
    requires WfCodec(c)
    requires BoundaryFree(cfg, c, p + q)
    ensures var r := Run(cfg, c, p);
      && Run(cfg, c, p + q) == Resume(cfg, r, q)
      && BoundaryFree(cfg, r.codec, r.rest + q)
      && CodecStep(cfg, r.codec, r.rest) == Stuck
    decreases |p|, CodecRank(c)
  {
    hide Run, BoundaryFree, CodecStep, DecBoundary, RouteOf;
    RunUnfolds(cfg, c, p);
    match CodecStep(cfg, c, p)
    case Stuck =>
    case Did(next, used, message) =>
      BoundaryFreeUnfolds(cfg, c, p + q);
      CodecStepExtends(cfg, c, p, q);
      RunUnfolds(cfg, c, p + q);
      assert (p + q)[used..] == p[used..] + q;
      RunSplits(cfg, next, p[used..], q);
      ResumePrepends(cfg, message, Run(cfg, next, p[used..]), q);
  }

  predicate Parked(cfg: Config, r: Progress)
  {
    WfCodec(r.codec) && CodecStep(cfg, r.codec, r.rest) == Stuck
  }

  lemma ResumeRegroups(cfg: Config, r: Progress, p: bytes, q: bytes)
    requires WfCodec(r.codec)
    requires Run(cfg, r.codec, r.rest + p + q) == Resume(cfg, Run(cfg, r.codec, r.rest + p), q)
    ensures Resume(cfg, Resume(cfg, r, p), q) == Resume(cfg, r, p + q)
  {
    hide Run;
    var first := Run(cfg, r.codec, r.rest + p);
    var second := Run(cfg, first.codec, first.rest + q);
    assert r.rest + (p + q) == r.rest + p + q;
    assert (r.messages + first.messages) + second.messages == r.messages + (first.messages + second.messages);
  }

  lemma ResumeTwice(cfg: Config, r: Progress, p: bytes, q: bytes)
    requires WfCodec(r.codec) && BoundaryFree(cfg, r.codec, r.rest + p + q)
    ensures Resume(cfg, Resume(cfg, r, p), q) == Resume(cfg, r, p + q)
    ensures var s := Resume(cfg, r, p); Parked(cfg, s) && BoundaryFree(cfg, s.codec, s.rest + q)
  {
    RunSplits(cfg, r.codec, r.rest + p, q);
    ResumeRegroups(cfg, r, p, q);
  }

  /** However the stream is cut, the reads end where one read of it all ends. */
  lemma {:induction false} FeedJoins(cfg: Config, r: Progress, chunks: seq<bytes>)
    requires Parked(cfg, r)
    requires BoundaryFree(cfg, r.codec, r.rest + Concat(chunks))
    ensures Feed(cfg, r, chunks) == Resume(cfg, r, Concat(chunks))
    decreases |chunks|
  {
    if chunks == [] {
      assert r.rest + [] == r.rest;
    } else {
      assert r.rest + Concat(chunks) == r.rest + chunks[0] + Concat(chunks[1..]);
      ResumeTwice(cfg, r, chunks[0], Concat(chunks[1..]));
      FeedJoins(cfg, Resume(cfg, r, chunks[0]), chunks[1..]);
    }
  }

  // ---------------------------------------------------------------- at a boundary the cuts do matter

  /** Not yet past the start line of a message. */
  predicate IsEarly(c: Codec) {
    || c.request.phase in {AtUri, AtVersion}
    || (c.request.phase == AtMethod && c.response.phase in {AtVersion, AtStatus})
  }

  /** Cutting at `k` gives another result, and one that leaves bytes unread. */
  predicate CutMatters(cfg: Config, c: Codec, s: bytes, k: nat)
    requires WfCodec(c)
  {
    && k <= |s|
    && var r := Resume(cfg, Run(cfg, c, s[..k]), s[k..]);
       r != Run(cfg, c, s) && r.rest != []
  }

  /** A decoder that fails on a prefix without consuming stays failed with all of it unread. */
  lemma FailsEarly(cfg: Config, c: Codec, s: bytes, k: nat, kind: Kind, error: DecodeError)
    requires WfCodec(c) && 1 <= k <= |s|
    requires RouteOf(c, s) == RouteOf(c, s[..k]) == To(kind) && !IsIdle(c)
    requires DecStep(cfg, Get(c, kind), s[..k]) == Fail(error, 0)
    requires DecStep(cfg, Get(c, kind), s).Fail? ==> DecStep(cfg, Get(c, kind), s).error != error
    requires DecStep(cfg, Get(c, kind), s).More? ==> DecStep(cfg, Get(c, kind), s).used > 0
    ensures CutMatters(cfg, c, s, k)
  {
    hide DecStep, Run;
    var failed := Put(c, Get(c, kind).(phase := Failed(error)));
    var p := s[..k];
    assert p[0..] == p && p + s[k..] == s;
    RunUnfolds(cfg, c, p);
    RunUnfolds(cfg, c, s);
    FailedIsStuck(cfg, failed, kind, p);
    FailedIsStuck(cfg, failed, kind, s);
    var whole := DecStep(cfg, Get(c, kind), s);
    if whole.Fail? {
      FailedIsStuck(cfg, Put(c, Get(c, kind).(phase := Failed(whole.error))), kind, s[whole.skipped..]);
    }
  }

  lemma FailedIsStuck(cfg: Config, c: Codec, kind: Kind, s: bytes)
    requires WfCodec(c) && Get(c, kind).phase.Failed? && (kind == RequestKind || c.request.phase == AtMethod)
    ensures Run(cfg, c, s) == Progress(c, s, [])
  {
  }

  lemma ValueAtLimitCut(cfg: Config, d: Dec, s: bytes) returns (k: nat)
    requires Wf(d) && ValueAtLimit(cfg, d, s)
    ensures 1 <= k <= |s| && DecStep(cfg, d, s[..k]) == Fail(HeaderValueTooLong, 0)
    ensures DecStep(cfg, d, s) != Fail(HeaderValueTooLong, 0)
  {
    hide ScanValue, StepField, StepHeader;
    var colon := IndexOf(s, COLON, cfg.nameMax + 1).value;
    var rest := s[colon + 1..];
    k := colon + 1 + cfg.valueMax + 1;
    var p := s[..k];
    var early := p[colon + 1..];
    assert early == rest[..cfg.valueMax + 1];
    assert IndexOf(p, COLON, cfg.nameMax + 1) == Some(colon);
    assert !StartsWith(p, CRLF) by {
      assert p[..2] == s[..2];
    }
    HeaderIsField(cfg, d, s, colon);
    HeaderIsField(cfg, d, p, colon);
    ValueCutEarly(rest, cfg.valueMax);
    FieldTooLong(cfg, d, s[..colon], rest);
    FieldTooLong(cfg, d, p[..colon], early);
  }

  lemma FieldTooLong(cfg: Config, d: Dec, name: bytes, rest: bytes)
    requires |d.builder.headers| < cfg.headerMaxCount
    ensures StepField(cfg, d, name, rest) == Fail(HeaderValueTooLong, 0) <==>
      ScanValue(rest, cfg.valueMax).ScanTooLong?
  {
  }

  /** A prefix that ends inside the terminator at the limit has no terminator. */
  lemma ValueCutEarly(rest: bytes, limit: nat)
    requires FirstTerminatorAt(rest, limit)
    ensures ScanValue(rest[..limit + 1], limit).ScanTooLong? && !ScanValue(rest, limit).ScanTooLong?
  {
    var early := rest[..limit + 1];
    assert early[limit] == CR;
    forall j: nat ensures IsTerminatorAt(early, j) ==> j + 1 < limit && IsTerminatorAt(rest, j) {
      assert j + 2 == |early| ==> j + 1 == limit;
      assert j + 2 < |early| ==> early[j..j + 3] == rest[j..j + 3];
    }
    assert IsTerminatorAt(rest, limit);
  }

  lemma BoundaryCut(cfg: Config, c: Codec, s: bytes, kind: Kind) returns (k: nat)
    requires WfCodec(c) && RouteOf(c, s) == To(kind) && DecBoundary(cfg, Get(c, kind), s)
    ensures 1 <= k <= |s| && CutMatters(cfg, c, s, k) && !IsEarly(c)
  {
    var d := Get(c, kind);
    if ValueAtLimit(cfg, d, s) {
      k := ValueAtLimitCut(cfg, d, s);
      FailsEarly(cfg, c, s, k, kind, HeaderValueTooLong);
    } else if ReasonPastLimit(cfg, d, s) {
      k := cfg.reasonMax + 2;
      assert forall j: nat :: IsCrlfAt(s[..k], j) ==> IsCrlfAt(s, j);
      assert CrlfFrom(s[..k], 0, cfg.reasonMax + 2).None?;
      FailsEarly(cfg, c, s, k, kind, ReasonPhraseTooLong);
    } else {
      k := 1;
      assert s[0] == s[..2][0];
      FailsEarly(cfg, c, s, k, kind, HeaderNameTooLong);
    }
  }

  // A step that consumed `used` bytes had looked at one byte more at most; an idle codec looks at five.

  lemma FieldLooksAhead(cfg: Config, d: Dec, name: bytes, rest: bytes, n: nat)
    requires StepField(cfg, d, name, rest).More?
    requires StepField(cfg, d, name, rest).used < |name| + 1 + n && n <= |rest|
    ensures StepField(cfg, d, name, rest[..n]) != Wait
  {
    var length := ScanValue(rest, cfg.valueMax).length;
    assert IsTerminatorAt(rest[..n], length);
  }

  lemma HeaderLooksAhead(cfg: Config, d: Dec, s: bytes, k: nat)
    requires Wf(d) && d.phase == AtHeader && StepHeader(cfg, d, s).More?
    requires StepHeader(cfg, d, s).used < k <= |s|
    ensures StepHeader(cfg, d, s[..k]) != Wait
  {
    var p := s[..k];
    assert p[..2] == s[..2];
    if !StartsWith(s, CRLF) {
      var colon := IndexOf(s, COLON, cfg.nameMax + 1).value;
      HeaderIsField(cfg, d, s, colon);
      NamedHeaderLooksAhead(cfg, d, s, k, colon);
    }
  }

  lemma NamedHeaderLooksAhead(cfg: Config, d: Dec, s: bytes, k: nat, colon: nat)
    requires !StartsWith(s, CRLF) && IndexOf(s, COLON, cfg.nameMax + 1) == Some(colon)
    requires StepField(cfg, d, s[..colon], s[colon + 1..]).More?
    requires StepField(cfg, d, s[..colon], s[colon + 1..]).used < k <= |s|
    ensures StepHeader(cfg, d, s[..k]) != Wait
  {
    hide StepHeader, StepField;
    var p := s[..k];
    assert p[..2] == s[..2];
    assert IndexOf(p, COLON, cfg.nameMax + 1) == Some(colon);
    HeaderIsField(cfg, d, p, colon);
    assert p[..colon] == s[..colon] && p[colon + 1..] == s[colon + 1..][..k - colon - 1];
    FieldLooksAhead(cfg, d, s[..colon], s[colon + 1..], k - colon - 1);
  }

  lemma NeedsMoreBytes(cfg: Config, d: Dec, s: bytes, k: nat)
    requires Wf(d) && DecStep(cfg, d, s).More?
    requires DecStep(cfg, d, s).used < k <= |s|
    ensures DecStep(cfg, d, s[..k]) != Wait
  {
    hide StepHeader, ParseMethod, ParseVersion, ParseStatus, ParseReason, Build;
    var p := s[..k];
    match d.phase
    case AtHeader => HeaderLooksAhead(cfg, d, s, k);
    case AtReason =>
      var i := CrlfFrom(s, 0, cfg.reasonMax + 2).value;
      assert IsCrlfAt(p, i);
    case AtMethod => assert p[IndexOf(s, SP, cfg.methodMax + 1).value] == SP;
    case AtUri => assert p[IndexOf(s, SP, cfg.uriMax + 1).value] == SP;
    case _ =>
  }

  lemma StepLooksAhead(cfg: Config, d: Dec, s: bytes, k: nat)
    requires Wf(d) && DecStep(cfg, d, s).More? && !DecBoundary(cfg, d, s)
    requires DecStep(cfg, d, s).used < k <= |s|
    ensures DecStep(cfg, d, s[..k]) == DecStep(cfg, d, s)
  {
    hide DecStep, DecBoundary;
    assert s[..k] + s[k..] == s;
    NeedsMoreBytes(cfg, d, s, k);
    StepExtends(cfg, d, s[..k], s[k..]);
  }

  predicate StepFails(cfg: Config, c: Codec, s: bytes)
    requires WfCodec(c)
  {
    RouteOf(c, s).To? && DecStep(cfg, Get(c, RouteOf(c, s).kind), s).Fail?
  }

  lemma FailIsTheEnd(cfg: Config, c: Codec, s: bytes, rest: bytes)
    requires WfCodec(c) && StepFails(cfg, c, s)
    ensures BoundaryFree(cfg, CodecStep(cfg, c, s).codec, rest)
  {
  }

  /** A start line takes at least five bytes. */
  lemma StartLineIsLong(cfg: Config, c: Codec, s: bytes, later: nat)
    requires WfCodec(c) && IsEarly(c) && CodecStep(cfg, c, s).Did? && !StepFails(cfg, c, s)
    requires 1 <= later && (IsEarly(CodecStep(cfg, c, s).codec) ==> 5 <= later)
    ensures 5 <= CodecStep(cfg, c, s).used + later
  {
  }

  lemma CodecStepLooksAhead(cfg: Config, c: Codec, s: bytes, k: nat)
    requires WfCodec(c) && CodecStep(cfg, c, s).Did? && !StepFails(cfg, c, s)
    requires RouteOf(c, s).To? ==> !DecBoundary(cfg, Get(c, RouteOf(c, s).kind), s)
    requires CodecStep(cfg, c, s).used < k <= |s| && (IsEarly(c) ==> 5 <= k)
    ensures CodecStep(cfg, c, s[..k]) == CodecStep(cfg, c, s)
  {
    assert RouteOf(c, s[..k]) == RouteOf(c, s) by {
      assert k >= 2 ==> s[..k][..2] == s[..2];
      assert k >= 5 ==> s[..k][..5] == s[..5];
    }
    if RouteOf(c, s).To? {
      StepLooksAhead(cfg, Get(c, RouteOf(c, s).kind), s, k);
    }
  }

  lemma PrependInjective(message: Option<Message>, a: Progress, b: Progress)
    requires Prepend(message, a) == Prepend(message, b)
    ensures a == b
  {
    if message.Some? {
      assert ([message.value] + a.messages)[1..] == a.messages;
      assert ([message.value] + b.messages)[1..] == b.messages;
    }
  }

  lemma CutLater(cfg: Config, c: Codec, s: bytes, t: Tick, later: nat)
    requires WfCodec(c) && t.Did? && WfCodec(t.codec) && t.used <= |s|
    requires Run(cfg, c, s) == Prepend(t.message, Run(cfg, t.codec, s[t.used..]))
    requires t.used + later <= |s|
    requires Run(cfg, c, s[..t.used + later]) == Prepend(t.message, Run(cfg, t.codec, s[t.used..][..later]))
    requires CutMatters(cfg, t.codec, s[t.used..], later)
    ensures CutMatters(cfg, c, s, t.used + later)
  {
    hide Run, Resume, Prepend, WfCodec;
    assert s[t.used + later..] == s[t.used..][later..];
    var rest := s[t.used..];
    var cut := Resume(cfg, Run(cfg, t.codec, rest[..later]), rest[later..]);
    ResumePrepends(cfg, t.message, Run(cfg, t.codec, rest[..later]), rest[later..]);
    if Prepend(t.message, cut) == Prepend(t.message, Run(cfg, t.codec, rest)) {
      PrependInjective(t.message, cut, Run(cfg, t.codec, rest));
    }
  }

  lemma SliceOfSlice(s: bytes, i: nat, n: nat)
    requires i + n <= |s|
    ensures s[..i + n][i..] == s[i..][..n]
  {
  }

  /** A run that meets a boundary has a cut that changes it. */
  lemma {:induction false} SomeCutMatters(cfg: Config, c: Codec, s: bytes) returns (k: nat)
    requires WfCodec(c) && !BoundaryFree(cfg, c, s)
    ensures 1 <= k <= |s| && CutMatters(cfg, c, s, k) && (IsEarly(c) ==> 5 <= k)
    decreases |s|, CodecRank(c)
  {
    hide Run, DecStep, DecBoundary, CutMatters;
    if RouteOf(c, s).To? && DecBoundary(cfg, Get(c, RouteOf(c, s).kind), s) {
      k := BoundaryCut(cfg, c, s, RouteOf(c, s).kind);
    } else {
      var t := CodecStep(cfg, c, s);
      var later := SomeCutMatters(cfg, t.codec, s[t.used..]);
      k := t.used + later;
      if StepFails(cfg, c, s) {
        FailIsTheEnd(cfg, c, s, s[t.used..]);
      }
      if IsEarly(c) {
        StartLineIsLong(cfg, c, s, later);
      }
      CodecStepLooksAhead(cfg, c, s, k);
      SliceOfSlice(s, t.used, later);
      RunUnfolds(cfg, c, s);
      RunUnfolds(cfg, c, s[..k]);
      CutLater(cfg, c, s, t, later);
    }
  }

  lemma FeedTwo(cfg: Config, p: bytes, q: bytes)
    ensures Concat([p, q]) == p + q
    ensures Feed(cfg, START, [p, q]) == Resume(cfg, Run(cfg, INITIAL, p), q)
  {
    hide Run;
    assert [p, q][1..] == [q] && [q][1..] == [];
    assert Concat([q]) == q + Concat([]);
    assert Concat([p, q]) == p + Concat([q]);
    assert [] + p == p;
    assert Feed(cfg, START, [p, q]) == Feed(cfg, Resume(cfg, START, p), [q]);
  }

  lemma SomeCutLeavesBytes(cfg: Config, s: bytes) returns (chunks: seq<bytes>)
    requires !BoundaryFree(cfg, INITIAL, s)
    ensures Concat(chunks) == s
    ensures Feed(cfg, START, chunks) != Run(cfg, INITIAL, s) && Feed(cfg, START, chunks).rest != []
  {
    hide Run, BoundaryFree, Feed;
    var k := SomeCutMatters(cfg, INITIAL, s);
    FeedTwo(cfg, s[..k], s[k..]);
    assert s[..k] + s[k..] == s;
    chunks := [s[..k], s[k..]];
  }

  lemma FeedIsRun(cfg: Config, chunks: seq<bytes>)
    requires BoundaryFree(cfg, INITIAL, Concat(chunks))
    ensures Feed(cfg, START, chunks) == Run(cfg, INITIAL, Concat(chunks))
  {
    hide Run, BoundaryFree;
    assert [] + Concat(chunks) == Concat(chunks);
    FeedJoins(cfg, START, chunks);
  }

  /** The result of reading a stream is independent of how it is cut exactly if no step of the run
      over the whole stream meets one of the three boundaries. */
  lemma ChunkingExact(cfg: Config, s: bytes)
    ensures BoundaryFree(cfg, INITIAL, s) <==>
      forall chunks: seq<bytes> :: Concat(chunks) == s ==> Feed(cfg, START, chunks) == Run(cfg, INITIAL, s)
  {
    hide Run, BoundaryFree, Feed;
    if BoundaryFree(cfg, INITIAL, s) {
      forall chunks: seq<bytes> | Concat(chunks) == s
        ensures Feed(cfg, START, chunks) == Run(cfg, INITIAL, s)
      {
        FeedIsRun(cfg, chunks);
      }
    } else {
      var chunks := SomeCutLeavesBytes(cfg, s);
    }
  }
}
