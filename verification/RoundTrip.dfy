/** Decoding what was encoded, and when the cuts of an encoded stream do not matter. */
module RoundTrip {
  import opened Bytes
  import opened Syntax
  import opened Decoding
  import opened Streaming
  import opened Codecs
  import opened Encoding
  import opened Chunking

  // ---------------------------------------------------------------- messages within the limits

  predicate ValidHeader(cfg: Config, h: Header) {
    && IsToken(h.name) && Canonical(cfg.standardNames, h.name) == h.name && |h.name| <= cfg.nameMax
    && ParseHeaderValue(h.value) == Ok(h.value) && |h.value| + 1 <= cfg.valueMax
    && (h.value != [] ==> !IsBlank(h.value[0]))
  }

  /** The header map spells equal names alike. */
  predicate Coherent(headers: seq<Header>) {
    forall i, j :: 0 <= i < j < |headers| && SameName(headers[i].name, headers[j].name) ==>
      headers[i].name == headers[j].name
  }

  predicate ValidHeaders(cfg: Config, headers: seq<Header>) {
    && (forall i :: 0 <= i < |headers| ==> ValidHeader(cfg, headers[i]))
    && Coherent(headers)
    && |headers| <= cfg.headerMaxCount
  }

  predicate ValidStart(cfg: Config, m: Message) {
    match m
    case Request(verb, uri, _, _) =>
      && IsToken(verb) && verb[0] != 36 && Upper(verb) == verb && |verb| <= cfg.methodMax
      && cfg.parseUri(uri) == Some(uri) && SP !in uri && |uri| <= cfg.uriMax
    case Response(status, reason, _, _) =>
      && IsStatus(status)
      && ParseReason(reason) == Ok(reason) && |reason| <= cfg.reasonMax + 1
      && cfg.canonicalReason(status) in {None, Some(reason)}
  }

  /** A message that its builder admits and that the decoder has room for. */
  predicate ValidMessage(cfg: Config, m: Message) {
    && ValidStart(cfg, m)
    && ValidHeaders(cfg, WireHeaders(m.headers, m.body))
    && |m.body| <= cfg.bodyMax && |m.body| <= MAX_CONTENT_LENGTH
  }

  // ---------------------------------------------------------------- folded values and framing

  /** No line break inside a header value ends it, and the one behind it does. */
  lemma FoldingKeepsFraming(v: bytes, tail: bytes, limit: nat)
    requires ParseHeaderValue(v).Ok?
    requires tail != [] && !IsBlank(tail[0])
    ensures FirstTerminatorAt([SP] + v + CRLF + tail, |v| + 1)
    ensures |v| + 1 <= limit ==> ScanValue([SP] + v + CRLF + tail, limit) == ScanFound(|v| + 1)
  {
    TextAcceptedIffFolded(v);
    var s := [SP] + v + CRLF + tail;
    forall j: nat | j < |v| + 1 ensures !IsTerminatorAt(s, j) {
      if 0 < j && s[j] == CR {
        assert s[j] == v[j - 1];
        assert IsFoldedAt(v, j - 1);
        assert s[j + 2] == v[j + 1];
      }
    }
    assert IsTerminatorAt(s, |v| + 1);
  }

  lemma TrimmedValue(v: bytes)
    requires v != [] ==> !IsBlank(v[0])
    ensures TrimValue([SP] + v) == v
  {
    var s := [SP] + v;
    var i := SkipBlanks(s, 0);
    assert s[1..] == v;
    assert v != [] ==> s[1] == v[0];
    assert i == 1;
  }

  lemma TrimmedName(name: bytes)
    requires IsToken(name)
    ensures TrimName(name) == name
  {
    assert IsTokenByte(name[|name| - 1]);
  }

  lemma StoredWhenCoherent(headers: seq<Header>, name: bytes)
    requires forall i :: 0 <= i < |headers| && SameName(headers[i].name, name) ==> headers[i].name == name
    ensures StoredName(headers, name) == name
  {
  }

  lemma AddsHeader(cfg: Config, builder: Builder, h: Header)
    requires ValidHeader(cfg, h)
    requires forall i :: 0 <= i < |builder.headers| && SameName(builder.headers[i].name, h.name) ==>
      builder.headers[i].name == h.name
    ensures AddHeader(cfg, builder, h.name, [SP] + h.value) ==
      Ok(builder.(headers := builder.headers + [h]))
  {
    TrimmedName(h.name);
    TrimmedValue(h.value);
    StoredWhenCoherent(builder.headers, h.name);
  }

  lemma FieldShape(h: Header, tail: bytes, limit: nat)
    requires IsToken(h.name) && |h.name| <= limit
    ensures var buf, rest := Field(h) + tail, [SP] + h.value + CRLF + tail;
      && |h.name| < |buf|
      && buf[..|h.name|] == h.name && buf[|h.name| + 1..] == rest
      && IndexOf(buf, COLON, limit + 1) == Some(|h.name|)
      && !StartsWith(buf, CRLF)
  {
    var buf, colon := Field(h) + tail, |h.name|;
    assert buf == h.name + ([COLON] + ([SP] + h.value + CRLF + tail));
    assert buf[colon] == COLON;
    assert forall i :: 0 <= i < colon ==> IsTokenByte(h.name[i]) && buf[i] == h.name[i];
  }

  lemma FieldStep(cfg: Config, d: Dec, h: Header, tail: bytes)
    requires |d.builder.headers| < cfg.headerMaxCount && ValidHeader(cfg, h)
    requires forall i :: 0 <= i < |d.builder.headers| && SameName(d.builder.headers[i].name, h.name) ==>
      d.builder.headers[i].name == h.name
    requires tail != [] && !IsBlank(tail[0])
    ensures StepField(cfg, d, h.name, [SP] + h.value + CRLF + tail) ==
      More(d.(builder := d.builder.(headers := d.builder.headers + [h])), |h.name| + |h.value| + 4, None)
  {
    hide AddHeader;
    FoldingKeepsFraming(h.value, tail, cfg.valueMax);
    assert ([SP] + h.value + CRLF + tail)[..|h.value| + 1] == [SP] + h.value;
    AddsHeader(cfg, d.builder, h);
  }

  lemma FieldIsRead(cfg: Config, d: Dec, h: Header, tail: bytes)
    requires d.phase == AtHeader && |d.builder.headers| < cfg.headerMaxCount
    requires ValidHeader(cfg, h)
    requires forall i :: 0 <= i < |d.builder.headers| && SameName(d.builder.headers[i].name, h.name) ==>
      d.builder.headers[i].name == h.name
    requires tail != [] && !IsBlank(tail[0])
    ensures StepHeader(cfg, d, Field(h) + tail) ==
      More(d.(builder := d.builder.(headers := d.builder.headers + [h])), |Field(h)|, None)
    ensures DecBoundary(cfg, d, Field(h) + tail) <==> |h.value| + 1 == cfg.valueMax
  {
    hide StepField, ParseHeaderValue, SameName, StepHeader, Canonical, FirstTerminatorAt, Field;
    var buf, rest := Field(h) + tail, [SP] + h.value + CRLF + tail;
    FieldShape(h, tail, cfg.nameMax);
    FieldLength(h);
    FoldingKeepsFraming(h.value, tail, cfg.valueMax);
    FieldStep(cfg, d, h, tail);
    HeaderIsField(cfg, d, buf, |h.name|);
    OneFirstTerminator(rest, |h.value| + 1, cfg.valueMax);
  }

  lemma FieldLength(h: Header)
    ensures |Field(h)| == |h.name| + |h.value| + 4
  {
  }

  lemma OneFirstTerminator(s: bytes, i: nat, j: nat)
    requires FirstTerminatorAt(s, i)
    ensures FirstTerminatorAt(s, j) <==> i == j
  {
  }

  // ---------------------------------------------------------------- one message

  /** No step of one decoder call meets a boundary. */
  predicate DecodeFree(cfg: Config, d: Dec, buf: bytes)
    requires Wf(d)
    decreases |buf|, Rank(d)
  {
    && !DecBoundary(cfg, d, buf)
    && match DecStep(cfg, d, buf)
       case More(next, used, None) => DecodeFree(cfg, next, buf[used..])
       case _ => true
  }

  lemma StepChains(cfg: Config, d: Dec, buf: bytes, next: Dec, used: nat)
    requires Wf(d) && DecStep(cfg, d, buf) == More(next, used, None)
    ensures Wf(next) && used <= |buf|
    ensures Decode(cfg, d, buf) == Later(used, Decode(cfg, next, buf[used..]))
    ensures DecodeFree(cfg, d, buf) <==> !DecBoundary(cfg, d, buf) && DecodeFree(cfg, next, buf[used..])
  {
    hide DecBoundary;
    DecodeUnfolds(cfg, d, buf);
  }

  predicate StrictHeaders(cfg: Config, headers: seq<Header>) {
    forall i :: 0 <= i < |headers| ==> |headers[i].value| + 1 < cfg.valueMax
  }

  function WithHeaders(d: Dec, headers: seq<Header>): Dec {
    d.(builder := d.builder.(headers := headers))
  }

  lemma {:induction false} HeadersAreRead(cfg: Config, d: Dec, hs: seq<Header>, tail: bytes)
    requires d.phase == AtHeader && Wf(d)
    requires forall i :: 0 <= i < |hs| ==> ValidHeader(cfg, hs[i])
    requires Coherent(d.builder.headers + hs) && |d.builder.headers| + |hs| <= cfg.headerMaxCount
    requires tail != [] && !IsBlank(tail[0])
    ensures var next := WithHeaders(d, d.builder.headers + hs);
      && Wf(next)
      && Decode(cfg, d, Fields(hs) + tail) == Later(|Fields(hs)|, Decode(cfg, next, tail))
      && (DecodeFree(cfg, d, Fields(hs) + tail) <==> StrictHeaders(cfg, hs) && DecodeFree(cfg, next, tail))
    decreases |hs|
  {
    hide Decode, DecodeFree, DecBoundary, ValidHeader, Field, StepHeader;
    var done := d.builder.headers;
    if hs == [] {
      assert [] + tail == tail && done + hs == done;
    } else {
      var h, rest := hs[0], Fields(hs[1..]) + tail;
      assert Fields(hs) + tail == Field(h) + rest;
      FieldsStart(cfg, hs[1..], tail);
      forall i | 0 <= i < |done| && SameName(done[i].name, h.name) ensures done[i].name == h.name {
        assert (done + hs)[i] == done[i] && (done + hs)[|done|] == h;
      }
      FieldIsRead(cfg, d, h, rest);
      var next := WithHeaders(d, done + [h]);
      StepChains(cfg, d, Field(h) + rest, next, |Field(h)|);
      assert (Field(h) + rest)[|Field(h)|..] == rest;
      assert done + [h] + hs[1..] == done + hs;
      HeadersAreRead(cfg, next, hs[1..], tail);
      assert StrictHeaders(cfg, hs) <==> |h.value| + 1 != cfg.valueMax && StrictHeaders(cfg, hs[1..]) by {
        StrictStep(cfg, hs);
      }
    }
  }

  lemma StrictStep(cfg: Config, hs: seq<Header>)
    requires hs != [] && ValidHeader(cfg, hs[0])
    ensures StrictHeaders(cfg, hs) <==> |hs[0].value| + 1 != cfg.valueMax && StrictHeaders(cfg, hs[1..])
  {
    assert forall i :: 1 <= i < |hs| ==> hs[i] == hs[1..][i - 1];
  }

  lemma FieldsStart(cfg: Config, hs: seq<Header>, tail: bytes)
    requires forall i :: 0 <= i < |hs| ==> ValidHeader(cfg, hs[i])
    requires tail != [] && !IsBlank(tail[0])
    ensures Fields(hs) + tail != [] && !IsBlank((Fields(hs) + tail)[0])
  {
    if hs != [] {
      assert IsTokenByte(hs[0].name[0]);
      assert (Fields(hs) + tail)[0] == hs[0].name[0];
    }
  }

  lemma {:induction false} NoLengthAmong(headers: seq<Header>)
    requires forall h :: h in headers ==> !IsLength(h)
    ensures Values(headers, CONTENT_LENGTH) == []
  {
    if headers != [] {
      assert headers[0] in headers;
      NoLengthAmong(headers[1..]);
    }
  }

  lemma LengthIsDeclared(headers: seq<Header>, body: bytes)
    requires |body| <= MAX_CONTENT_LENGTH
    ensures DeclaredLength(WireHeaders(headers, body)) == Some(|body|)
  {
    var wire, others := WireHeaders(headers, body), Others(headers);
    NoLengthAmong(others);
    if body == [] {
      assert wire == others;
    } else {
      assert wire[0] == Header(CONTENT_LENGTH, Decimal(|body|)) && wire[1..] == others;
      DecimalRoundTrip(|body|);
    }
  }

  lemma BodyIsRead(cfg: Config, d: Dec, body: bytes, tail: bytes)
    requires d.phase == AtHeader && Wf(d)
    requires DeclaredLength(d.builder.headers) == Some(|body|) && |body| <= cfg.bodyMax
    ensures var end := d.(phase := AtEnd, contentLength := |body|, builder := d.builder.(body := Some(body)));
      Decode(cfg, d, CRLF + body + tail) ==
        Call(Complete(Build(cfg, end)), Fresh(d.kind).(contentLength := |body|), 2 + |body|)
    ensures DecodeFree(cfg, d, CRLF + body + tail) <==> cfg.nameMax > 0
  {
    hide Decode, DecodeFree, Build, DeclaredLength;
    var buf := CRLF + body + tail;
    assert buf[..2] == CRLF && buf[2..] == body + tail;
    var inBody := d.(phase := AtBody, contentLength := |body|);
    StepChains(cfg, d, buf, inBody, 2);
    var end := d.(phase := AtEnd, contentLength := |body|, builder := d.builder.(body := Some(body)));
    assert (body + tail)[..|body|] == body && (body + tail)[|body|..] == tail;
    StepChains(cfg, inBody, body + tail, end, |body|);
    EndStep(cfg, end, tail);
    DecodeUnfolds(cfg, end, tail);
    EndIsFree(cfg, end, tail);
  }

  lemma EndIsFree(cfg: Config, d: Dec, buf: bytes)
    requires Wf(d) && d.phase == AtEnd
    ensures DecodeFree(cfg, d, buf)
  {
  }

  lemma WordShape(word: bytes, rest: bytes, limit: nat)
    requires SP !in word && |word| <= limit
    ensures var buf := word + [SP] + rest;
      && IndexOf(buf, SP, limit + 1) == Some(|word|)
      && buf[..|word|] == word && buf[|word| + 1..] == rest
  {
    var buf := word + [SP] + rest;
    assert buf[|word|] == SP;
    assert forall i :: 0 <= i < |word| ==> buf[i] == word[i] && word[i] in word;
  }

  function AtRequestHeaders(verb: bytes, uri: bytes, n: nat): Dec {
    Dec(RequestKind, AtHeader, EMPTY_BUILDER.(verb := Some(verb), uri := Some(uri)), n)
  }

  lemma VerbIsRead(cfg: Config, d: Dec, verb: bytes, rest: bytes)
    requires d.phase == AtMethod && Wf(d)
    requires IsToken(verb) && verb[0] != 36 && Upper(verb) == verb && |verb| <= cfg.methodMax
    ensures DecStep(cfg, d, verb + [SP] + rest) ==
      More(d.(phase := AtUri, builder := d.builder.(verb := Some(verb))), |verb| + 1, None)
  {
    assert forall i :: 0 <= i < |verb| ==> IsTokenByte(verb[i]);
    WordShape(verb, rest, cfg.methodMax);
  }

  lemma UriIsRead(cfg: Config, d: Dec, uri: bytes, rest: bytes)
    requires d.phase == AtUri && Wf(d)
    requires cfg.parseUri(uri) == Some(uri) && SP !in uri && |uri| <= cfg.uriMax
    ensures DecStep(cfg, d, uri + [SP] + rest) ==
      More(d.(phase := AtVersion, builder := d.builder.(uri := Some(uri))), |uri| + 1, None)
  {
    WordShape(uri, rest, cfg.uriMax);
  }

  lemma VersionIsRead(cfg: Config, d: Dec, rest: bytes)
    requires d.phase == AtVersion && Wf(d)
    ensures d.kind == RequestKind ==>
      DecStep(cfg, d, RTSP_2_0 + CRLF + rest) == More(d.(phase := AtHeader), 10, None)
    ensures d.kind == ResponseKind ==>
      DecStep(cfg, d, RTSP_2_0 + [SP] + rest) == More(d.(phase := AtStatus), 9, None)
  {
    var request, response := RTSP_2_0 + CRLF + rest, RTSP_2_0 + [SP] + rest;
    assert request[..8] == RTSP_2_0 && request[8..10] == CRLF;
    assert response[..8] == RTSP_2_0 && response[8..9] == [SP];
  }

  lemma RequestLineIsRead(cfg: Config, m: Message, n: nat, tail: bytes)
    requires m.Request? && ValidStart(cfg, m)
    ensures var d, next := Fresh(RequestKind).(contentLength := n), AtRequestHeaders(m.verb, m.uri, n);
      && Decode(cfg, d, StartLine(m) + tail) == Later(|StartLine(m)|, Decode(cfg, next, tail))
      && (DecodeFree(cfg, d, StartLine(m) + tail) <==> DecodeFree(cfg, next, tail))
  {
    hide Decode, DecodeFree, DecStep, IsToken, Upper;
    var d := Fresh(RequestKind).(contentLength := n);
    var afterVerb := d.(phase := AtUri, builder := d.builder.(verb := Some(m.verb)));
    var afterUri := afterVerb.(phase := AtVersion, builder := afterVerb.builder.(uri := Some(m.uri)));
    var version := RTSP_2_0 + CRLF + tail;
    var target := m.uri + [SP] + version;
    var line := m.verb + [SP] + target;
    assert StartLine(m) + tail == line;
    VerbIsRead(cfg, d, m.verb, target);
    StepChains(cfg, d, line, afterVerb, |m.verb| + 1);
    assert line[|m.verb| + 1..] == target;
    UriIsRead(cfg, afterVerb, m.uri, version);
    StepChains(cfg, afterVerb, target, afterUri, |m.uri| + 1);
    assert target[|m.uri| + 1..] == version;
    VersionIsRead(cfg, afterUri, tail);
    StepChains(cfg, afterUri, version, AtRequestHeaders(m.verb, m.uri, n), 10);
    assert version[10..] == tail;
  }

  lemma LineShape(line: bytes, rest: bytes, limit: nat)
    requires forall i :: 0 <= i < |line| ==> IsTextByte(line[i])
    requires |line| < limit
    ensures var buf := line + CRLF + rest;
      CrlfFrom(buf, 0, limit) == Some(|line|) && buf[..|line|] == line && buf[|line| + 2..] == rest
  {
    var buf := line + CRLF + rest;
    assert IsCrlfAt(buf, |line|);
    assert forall i: nat :: i < |line| ==> buf[i] == line[i] && IsTextByte(line[i]);
  }

  function AtResponseHeaders(status: nat, reason: bytes, n: nat): Dec {
    Dec(ResponseKind, AtHeader, EMPTY_BUILDER.(status := status, reason := Some(reason)), n)
  }

  lemma StatusIsRead(cfg: Config, d: Dec, status: nat, rest: bytes)
    requires d.phase == AtStatus && Wf(d) && IsStatus(status)
    ensures DecStep(cfg, d, Decimal(status) + [SP] + rest) ==
      More(d.(phase := AtReason, builder := d.builder.(status := status)), |Decimal(status)| + 1, None)
  {
    hide Decimal, ParseStatus;
    StatusRoundTrip(status);
    var buf := Decimal(status) + [SP] + rest;
    assert buf[..3] == Decimal(status) && buf[3] == SP;
  }

  lemma ReasonIsRead(cfg: Config, d: Dec, reason: bytes, rest: bytes)
    requires d.phase == AtReason && Wf(d)
    requires ParseReason(reason) == Ok(reason) && |reason| <= cfg.reasonMax + 1
    ensures DecStep(cfg, d, reason + CRLF + rest) ==
      More(d.(phase := AtHeader, builder := d.builder.(reason := Some(reason))), |reason| + 2, None)
    ensures DecBoundary(cfg, d, reason + CRLF + rest) <==> |reason| == cfg.reasonMax + 1
  {
    LineShape(reason, rest, cfg.reasonMax + 2);
  }

  /** The status line by the pieces in which it is read. */
  lemma StatusLineShape(m: Message, tail: bytes)
    requires m.Response?
    ensures var code := Decimal(m.status) + [SP];
      StartLine(m) + tail == (RTSP_2_0 + [SP]) + (code + (m.reason + CRLF + tail))
  {
    hide Decimal;
    var code, phrase := Decimal(m.status) + [SP], m.reason + CRLF + tail;
    assert StartLine(m) + tail == RTSP_2_0 + [SP] + (code + (m.reason + CRLF)) + tail;
    assert code + (m.reason + CRLF) + tail == code + phrase;
  }

  lemma Follows(a: bytes, b: bytes)
    ensures (a + b)[|a|..] == b
  {
  }

  lemma StatusLineIsRead(cfg: Config, m: Message, n: nat, tail: bytes)
    requires m.Response? && ValidStart(cfg, m)
    ensures var d, next := Fresh(ResponseKind).(contentLength := n), AtResponseHeaders(m.status, m.reason, n);
      && Decode(cfg, d, StartLine(m) + tail) == Later(|StartLine(m)|, Decode(cfg, next, tail))
      && (DecodeFree(cfg, d, StartLine(m) + tail) <==> |m.reason| <= cfg.reasonMax && DecodeFree(cfg, next, tail))
  {
    hide Decode, DecodeFree, Decimal, ParseReason, DecStep, DecBoundary, StartLine;
    var d := Fresh(ResponseKind).(contentLength := n);
    var phrase := m.reason + CRLF + tail;
    var first, second, third := RTSP_2_0 + [SP], Decimal(m.status) + [SP], m.reason + CRLF;
    StatusLineShape(m, tail);
    VersionIsRead(cfg, d, second + phrase);
    NoBoundaryAt(cfg, d, first + (second + phrase));
    Follows(first, second + phrase);
    var afterVersion := d.(phase := AtStatus);
    StepChains(cfg, d, first + (second + phrase), afterVersion, 9);
    StatusIsRead(cfg, afterVersion, m.status, phrase);
    NoBoundaryAt(cfg, afterVersion, second + phrase);
    Follows(second, phrase);
    var afterStatus := d.(phase := AtReason, builder := d.builder.(status := m.status));
    StepChains(cfg, afterVersion, second + phrase, afterStatus, |second|);
    ReasonIsRead(cfg, afterStatus, m.reason, tail);
    Follows(third, tail);
    StepChains(cfg, afterStatus, phrase, AtResponseHeaders(m.status, m.reason, n), |third|);
  }

  lemma NoBoundaryAt(cfg: Config, d: Dec, buf: bytes)
    requires d.phase != AtHeader && d.phase != AtReason
    ensures !DecBoundary(cfg, d, buf)
  {
  }

  function KindOf(m: Message): Kind {
    if m.Request? then RequestKind else ResponseKind
  }

  /** Short of every limit at which the cuts begin to matter. */
  predicate Strict(cfg: Config, m: Message) {
    && cfg.nameMax > 0
    && StrictHeaders(cfg, WireHeaders(m.headers, m.body))
    && (m.Response? ==> |m.reason| <= cfg.reasonMax)
  }

  /** One encoded message at the front of the bytes is read back, normalized. */
  lemma MessageIsRead(cfg: Config, m: Message, n: nat, tail: bytes)
    requires ValidMessage(cfg, m)
    ensures var d := Fresh(KindOf(m)).(contentLength := n);
      && Decode(cfg, d, Encode(m) + tail) ==
           Call(Complete(Normalize(m)), d.(contentLength := |m.body|), |Encode(m)|)
      && (DecodeFree(cfg, d, Encode(m) + tail) <==> Strict(cfg, m))
  {
    hide Decode, DecodeFree, DeclaredLength, WireHeaders, StartLine, Fields, ParseReason, ParseHeaderValue;
    var wire := WireHeaders(m.headers, m.body);
    var rest := CRLF + m.body + tail;
    var fields := Fields(wire) + rest;
    assert Encode(m) + tail == StartLine(m) + fields;
    var atHeaders := if m.Request? then AtRequestHeaders(m.verb, m.uri, n)
      else AtResponseHeaders(m.status, m.reason, n);
    if m.Request? {
      RequestLineIsRead(cfg, m, n, fields);
    } else {
      StatusLineIsRead(cfg, m, n, fields);
    }
    assert [] + wire == wire;
    HeadersAreRead(cfg, atHeaders, wire, rest);
    LengthIsDeclared(m.headers, m.body);
    BodyIsRead(cfg, WithHeaders(atHeaders, wire), m.body, tail);
  }

  // ---------------------------------------------------------------- pipelined messages

  /** Both decoders await a message; only the last declared lengths may linger. */
  predicate Ready(c: Codec) {
    && c.request == Fresh(RequestKind).(contentLength := c.request.contentLength)
    && c.response == Fresh(ResponseKind).(contentLength := c.response.contentLength)
  }

  function NormalizeAll(ms: seq<Message>): seq<Message> {
    if ms == [] then [] else [Normalize(ms[0])] + NormalizeAll(ms[1..])
  }

  lemma WordIsNotSlashed(verb: bytes, rest: bytes)
    requires IsToken(verb) && |rest| >= 5
    ensures var buf := verb + [SP] + rest; !StartsWith(buf, CRLF) && !StartsWith(buf, RTSP_SLASH)
  {
    var buf := verb + [SP] + rest;
    assert IsTokenByte(verb[0]) && buf[0] == verb[0];
    if |verb| < 5 {
      assert buf[|verb|] == SP;
      assert buf[..5][|verb|] != RTSP_SLASH[|verb|];
    } else {
      assert IsTokenByte(verb[4]) && buf[..5][4] == verb[4];
    }
  }

  lemma RequestRoute(c: Codec, verb: bytes, rest: bytes)
    requires Ready(c) && IsToken(verb) && |rest| >= 5
    ensures RouteOf(c, verb + [SP] + rest) == To(RequestKind)
  {
    WordIsNotSlashed(verb, rest);
  }

  lemma ResponseRoute(c: Codec, rest: bytes)
    requires Ready(c)
    ensures RouteOf(c, RTSP_2_0 + rest) == To(ResponseKind)
  {
    var buf := RTSP_2_0 + rest;
    assert buf[..5] == RTSP_SLASH && buf[0] == RTSP_2_0[0];
  }

  lemma RequestShape(m: Message, rest: bytes)
    requires m.Request?
    ensures StartLine(m) + rest == m.verb + [SP] + (m.uri + [SP] + (RTSP_2_0 + CRLF) + rest)
  {
  }

  lemma ResponseShape(m: Message, rest: bytes)
    requires m.Response?
    ensures StartLine(m) + rest == RTSP_2_0 + ([SP] + (Decimal(m.status) + [SP] + (m.reason + CRLF)) + rest)
  {
    hide Decimal;
  }

  lemma EncodeShape(m: Message, tail: bytes) returns (rest: bytes)
    ensures Encode(m) + tail == StartLine(m) + rest
  {
    hide StartLine, Fields, WireHeaders;
    rest := Fields(WireHeaders(m.headers, m.body)) + (CRLF + m.body) + tail;
  }

  /** A slash is not a token byte, so no request looks like a response; neither starts with CRLF. */
  lemma EncodedRoute(cfg: Config, c: Codec, m: Message, tail: bytes)
    requires Ready(c) && ValidStart(cfg, m)
    ensures RouteOf(c, Encode(m) + tail) == To(KindOf(m))
  {
    hide Encode, StartLine, Decimal, ParseReason, Upper, RouteOf, IsToken;
    var rest := EncodeShape(m, tail);
    if m.Request? {
      RequestShape(m, rest);
      RequestRoute(c, m.verb, m.uri + [SP] + (RTSP_2_0 + CRLF) + rest);
    } else {
      ResponseShape(m, rest);
      ResponseRoute(c, [SP] + (Decimal(m.status) + [SP] + (m.reason + CRLF)) + rest);
    }
  }

  lemma BoundaryFreeSteps(cfg: Config, c: Codec, buf: bytes, kind: Kind)
    requires WfCodec(c) && RouteOf(c, buf) == To(kind)
    ensures var d := Get(c, kind);
      var s := DecStep(cfg, d, buf);
      BoundaryFree(cfg, c, buf) <==>
        && !DecBoundary(cfg, d, buf)
        && (s.More? ==> BoundaryFree(cfg, Put(c, s.next), buf[s.used..]))
  {
    hide DecBoundary, DecStep;
    if DecStep(cfg, Get(c, kind), buf).Fail? {
      FailIsTheEnd(cfg, c, buf, buf[DecStep(cfg, Get(c, kind), buf).skipped..]);
    }
  }

  lemma DecodeFreeSteps(cfg: Config, d: Dec, buf: bytes)
    requires Wf(d)
    ensures var s := DecStep(cfg, d, buf);
      DecodeFree(cfg, d, buf) <==>
        && !DecBoundary(cfg, d, buf)
        && (s.More? && s.message.None? ==> DecodeFree(cfg, s.next, buf[s.used..]))
  {
    hide DecBoundary, DecStep;
  }

  /** The boundaries of a run are those of the decoder call and, if it completes, of the rest. */
  lemma {:induction false} BoundaryFreeFollows(cfg: Config, c: Codec, buf: bytes, kind: Kind)
    requires WfCodec(c) && RouteOf(c, buf) == To(kind)
    requires Decode(cfg, Get(c, kind), buf).outcome.Complete?
    ensures var call := Decode(cfg, Get(c, kind), buf);
      BoundaryFree(cfg, c, buf) <==>
        DecodeFree(cfg, Get(c, kind), buf) && BoundaryFree(cfg, Put(c, call.after), buf[call.used..])
    decreases |buf|, Rank(Get(c, kind))
  {
    hide DecStep, Decode, RouteOf, BoundaryFree, DecodeFree, DecBoundary;
    var d := Get(c, kind);
    BoundaryFreeSteps(cfg, c, buf, kind);
    DecodeFreeSteps(cfg, d, buf);
    if d.phase.Failed? {
      FailedStays(cfg, d, buf);
    } else {
      DecodeUnfolds(cfg, d, buf);
      var s := DecStep(cfg, d, buf);
      if s.message.None? {
        PutStays(c, kind, s.next, buf, buf[s.used..]);
        BoundaryFreeFollows(cfg, Put(c, s.next), buf[s.used..], kind);
        var call := Decode(cfg, s.next, buf[s.used..]);
        assert buf[s.used..][call.used..] == buf[s.used + call.used..];
        assert Put(Put(c, s.next), call.after) == Put(c, call.after);
      }
    }
  }

  lemma NextMessageIsRead(cfg: Config, c: Codec, m: Message, tail: bytes) returns (next: Codec)
    requires Ready(c) && ValidMessage(cfg, m)
    ensures Ready(next)
    ensures Run(cfg, c, Encode(m) + tail) == Prepend(Some(Normalize(m)), Run(cfg, next, tail))
    ensures BoundaryFree(cfg, c, Encode(m) + tail) <==> Strict(cfg, m) && BoundaryFree(cfg, next, tail)
  {
    hide Run, BoundaryFree, Decode, DecodeFree, RouteOf, ValidStart, Encode, ValidHeaders, Normalize, Strict;
    var buf, kind := Encode(m) + tail, KindOf(m);
    var n := Get(c, kind).contentLength;
    assert Get(c, kind) == Fresh(kind).(contentLength := n);
    EncodedRoute(cfg, c, m, tail);
    MessageIsRead(cfg, m, n, tail);
    next := Put(c, Fresh(kind).(contentLength := |m.body|));
    assert buf[|Encode(m)|..] == tail;
    RunFollowsDecode(cfg, c, buf, kind);
    BoundaryFreeFollows(cfg, c, buf, kind);
  }

  lemma NothingToRun(cfg: Config, c: Codec)
    requires Ready(c)
    ensures Run(cfg, c, []) == Progress(c, [], []) && BoundaryFree(cfg, c, [])
  {
  }

  lemma BreakIsSkipped(cfg: Config, c: Codec, s: bytes)
    requires WfCodec(c) && IsIdle(c)
    ensures Run(cfg, c, CRLF + s) == Run(cfg, c, s)
    ensures BoundaryFree(cfg, c, CRLF + s) <==> BoundaryFree(cfg, c, s)
  {
    assert (CRLF + s)[..2] == CRLF && (CRLF + s)[2..] == s;
  }

  /** Between messages any number of line breaks are passed over. */
  lemma {:induction false} BreaksAreSkipped(cfg: Config, c: Codec, n: nat, s: bytes)
    requires WfCodec(c) && IsIdle(c)
    ensures Run(cfg, c, Breaks(n) + s) == Run(cfg, c, s)
    ensures BoundaryFree(cfg, c, Breaks(n) + s) <==> BoundaryFree(cfg, c, s)
    decreases n
  {
    hide Run, BoundaryFree;
    if n == 0 {
      assert [] + s == s;
    } else {
      assert Breaks(n) + s == CRLF + (Breaks(n - 1) + s);
      BreakIsSkipped(cfg, c, Breaks(n - 1) + s);
      BreaksAreSkipped(cfg, c, n - 1, s);
    }
  }

  /** The messages encoded one after the other, with so many line breaks before each and behind the last. */
  function EncodeAll(ms: seq<Message>, breaks: seq<nat>): bytes
    requires |breaks| == |ms| + 1
  {
    Breaks(breaks[0]) + if ms == [] then [] else Encode(ms[0]) + EncodeAll(ms[1..], breaks[1..])
  }

  /** Any pipeline of valid messages, with line breaks between them, is read back in order and normalized,
      with nothing left over. */
  lemma {:induction false} PipelineIsRead(cfg: Config, c: Codec, ms: seq<Message>, breaks: seq<nat>)
    requires Ready(c) && |breaks| == |ms| + 1 && forall m :: m in ms ==> ValidMessage(cfg, m)
    ensures var r := Run(cfg, c, EncodeAll(ms, breaks));
      r.messages == NormalizeAll(ms) && r.rest == [] && Ready(r.codec)
    ensures BoundaryFree(cfg, c, EncodeAll(ms, breaks)) <==> forall m :: m in ms ==> Strict(cfg, m)
    decreases |ms|
  {
    hide Run, BoundaryFree, ValidMessage, Encode, Normalize, Strict;
    if ms == [] {
      BreaksAreSkipped(cfg, c, breaks[0], []);
      NothingToRun(cfg, c);
    } else {
      var later := EncodeAll(ms[1..], breaks[1..]);
      BreaksAreSkipped(cfg, c, breaks[0], Encode(ms[0]) + later);
      assert ms[0] in ms && forall m :: m in ms[1..] ==> m in ms;
      assert forall m :: m in ms ==> m == ms[0] || m in ms[1..];
      var next := NextMessageIsRead(cfg, c, ms[0], later);
      PipelineIsRead(cfg, next, ms[1..], breaks[1..]);
    }
  }

  /** For valid messages the cuts of the stream do not matter exactly if every message is strict; if
      they do not matter, every way of cutting reads back every message. */
  lemma CutPipeline(cfg: Config, ms: seq<Message>, breaks: seq<nat>)
    requires |breaks| == |ms| + 1 && forall m :: m in ms ==> ValidMessage(cfg, m)
    ensures (forall m :: m in ms ==> Strict(cfg, m)) <==>
      forall chunks: seq<bytes> :: Concat(chunks) == EncodeAll(ms, breaks) ==>
        var r := Feed(cfg, START, chunks);
        r.messages == NormalizeAll(ms) && r.rest == []
  {
    hide Run, BoundaryFree, Feed, EncodeAll, NormalizeAll, Strict, ValidMessage;
    var s := EncodeAll(ms, breaks);
    PipelineIsRead(cfg, INITIAL, ms, breaks);
    ChunkingExact(cfg, s);
    if !BoundaryFree(cfg, INITIAL, s) {
      var chunks := SomeCutLeavesBytes(cfg, s);
    }
  }

  /** A new codec that is given the encodings of strict messages, in whatever pieces and with line breaks
      between them, returns the messages, and nothing is left in its buffer. */
  method ReadBack(codec: MessageCodec, ms: seq<Message>, breaks: seq<nat>, chunks: seq<bytes>)
    returns (read: seq<Message>)
    requires codec.Valid() && codec.State() == INITIAL
    requires |breaks| == |ms| + 1 && Concat(chunks) == EncodeAll(ms, breaks)
    requires forall m :: m in ms ==> ValidMessage(codec.config, m) && Strict(codec.config, m)
    modifies codec.requestDecoder, codec.responseDecoder
    ensures read == NormalizeAll(ms)
  {
    hide Feed, Concat, EncodeAll, NormalizeAll, ValidMessage, Strict;
    CutPipeline(codec.config, ms, breaks);
    var buffer := new ByteBuffer();
    read := codec.DecodePieces(buffer, chunks);
    assert buffer.data == [];
  }

  // ---------------------------------------------------------------- a message at the boundary

  function Letters(n: nat): (s: bytes)
    ensures |s| == n
  {
    seq(n, _ => 97)
  }

  lemma LettersAreText(n: nat)
    ensures ParseHeaderValue(Letters(n)) == Ok(Letters(n))
  {
    var s := Letters(n);
    AsciiIsUtf8(s);
    TextAcceptedIffFolded(s);
  }

  const X_NAME: bytes := [88]
  const ASTERISK: bytes := [42]
  const OPTIONS: bytes := [79, 80, 84, 73, 79, 78, 83]

  /** A request with one header, whose value has the given length. */
  function OneHeader(n: nat): Message {
    Request(OPTIONS, ASTERISK, [Header(X_NAME, Letters(n))], [])
  }

  lemma OneHeaderIsValid(cfg: Config, n: nat)
    requires cfg.parseUri(ASTERISK) == Some(ASTERISK) && Canonical(cfg.standardNames, X_NAME) == X_NAME
    requires cfg.methodMax >= 7 && cfg.uriMax >= 1 && cfg.nameMax >= 1 && cfg.headerMaxCount >= 1
    requires n + 1 <= cfg.valueMax
    ensures ValidMessage(cfg, OneHeader(n)) && Normalize(OneHeader(n)) == OneHeader(n)
    ensures Strict(cfg, OneHeader(n)) <==> n + 1 < cfg.valueMax
  {
    var h := Header(X_NAME, Letters(n));
    LettersAreText(n);
    assert Lower(X_NAME)[0] != Lower(CONTENT_LENGTH)[0];
    assert Others([h]) == [h] + Others([]);
    assert WireHeaders([h], []) == [h];
    assert Upper(OPTIONS) == OPTIONS;
  }

  /** A valid message at a boundary can be cut so that it is not read back. */
  lemma LooseIsCut(cfg: Config, m: Message) returns (chunks: seq<bytes>)
    requires ValidMessage(cfg, m) && !Strict(cfg, m)
    ensures Concat(chunks) == Encode(m)
    ensures var r := Feed(cfg, START, chunks); !(r.messages == [Normalize(m)] && r.rest == [])
  {
    assert WfCodec(START.codec);
    hide *;
    CutPipeline(cfg, [m], [0, 0]);
    OneMessage(m);
    chunks :| Concat(chunks) == EncodeAll([m], [0, 0]) &&
      var r := Feed(cfg, START, chunks); !(r.messages == NormalizeAll([m]) && r.rest == []);
  }

  /** Whatever the limits: a value that fills its limit makes a valid message, and there is a way of
      cutting that message after which it is not read back. */
  lemma LongValueIsCut(cfg: Config) returns (chunks: seq<bytes>)
    requires cfg.parseUri(ASTERISK) == Some(ASTERISK) && Canonical(cfg.standardNames, X_NAME) == X_NAME
    requires cfg.methodMax >= 7 && cfg.uriMax >= 1 && cfg.nameMax >= 1 && cfg.headerMaxCount >= 1
    requires cfg.valueMax >= 1
    ensures var m := OneHeader(cfg.valueMax - 1);
      && ValidMessage(cfg, m) && Concat(chunks) == Encode(m)
      && var r := Feed(cfg, START, chunks); !(r.messages == [m] && r.rest == [])
  {
    OneHeaderIsValid(cfg, cfg.valueMax - 1);
    hide *;
    chunks := LooseIsCut(cfg, OneHeader(cfg.valueMax - 1));
  }

  lemma OneMessage(m: Message)
    ensures EncodeAll([m], [0, 0]) == Encode(m) && NormalizeAll([m]) == [Normalize(m)]
  {
    hide Encode, Normalize;
    assert EncodeAll([], [0]) == [] && NormalizeAll([]) == [];
    assert [m][1..] == [] && [0, 0][1..] == [0];
    assert Encode(m) + [] == Encode(m);
  }
}
