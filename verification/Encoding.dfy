/** The encoder: what it writes, and the loops that write it. */
module Encoding {
  import opened Bytes
  import opened Syntax
  import opened Decoding
  import opened Codecs

  predicate IsLength(h: Header) {
    SameName(h.name, CONTENT_LENGTH)
  }

  /** The headers other than the content length, in order. */
  function Others(headers: seq<Header>): (r: seq<Header>)
    ensures forall h :: h in r <==> h in headers && !IsLength(h)
    ensures |r| <= |headers|
  {
    if headers == [] then []
    else (if IsLength(headers[0]) then [] else [headers[0]]) + Others(headers[1..])
  }

  /** The content length comes first and only with a body. */
  function WireHeaders(headers: seq<Header>, body: bytes): seq<Header> {
    (if body == [] then [] else [Header(CONTENT_LENGTH, Decimal(|body|))]) + Others(headers)
  }

  function Normalize(m: Message): Message {
    m.(headers := WireHeaders(m.headers, m.body))
  }

  lemma {:induction false} OthersJoin(a: seq<Header>, b: seq<Header>)
    ensures Others(a + b) == Others(a) + Others(b)
    decreases |a|
  {
    if a == [] {
      assert a + b == b;
    } else {
      assert (a + b)[1..] == a[1..] + b && (a + b)[0] == a[0];
      OthersJoin(a[1..], b);
      var first := if IsLength(a[0]) then [] else [a[0]];
      assert first + (Others(a[1..]) + Others(b)) == first + Others(a[1..]) + Others(b);
    }
  }

  /** What a normalized message keeps: everything but its content length, with the headers in their order; it
      has one content length, in decimal and in front, if it has a body, and none otherwise. */
  lemma NormalizeKeeps(m: Message)
    ensures var n := Normalize(m);
      && n.body == m.body && (n.Request? <==> m.Request?)
      && (m.Request? ==> n.verb == m.verb && n.uri == m.uri)
      && (m.Response? ==> n.status == m.status && n.reason == m.reason)
      && (m.body == [] ==> Values(n.headers, CONTENT_LENGTH) == [])
      && (m.body != [] ==>
            && n.headers[0] == Header(CONTENT_LENGTH, Decimal(|m.body|))
            && Values(n.headers, CONTENT_LENGTH) == [Decimal(|m.body|)])
      && (m.body == [] && Values(m.headers, CONTENT_LENGTH) == [] ==> n.headers == m.headers)
    ensures forall name :: !SameName(CONTENT_LENGTH, name) ==>
      Values(Normalize(m).headers, name) == Values(m.headers, name)
  {
    OthersHave(m.headers, CONTENT_LENGTH);
    forall name | !SameName(CONTENT_LENGTH, name)
      ensures Values(Normalize(m).headers, name) == Values(m.headers, name)
    {
      OthersHave(m.headers, name);
      FrontHas(m.headers, m.body, name);
    }
    FrontHas(m.headers, m.body, CONTENT_LENGTH);
    if Values(m.headers, CONTENT_LENGTH) == [] {
      NoneLeftOut(m.headers);
    }
    hide Decimal;
  }

  lemma {:induction false} OthersHave(headers: seq<Header>, name: bytes)
    ensures Values(Others(headers), name) == if SameName(CONTENT_LENGTH, name) then [] else Values(headers, name)
    decreases |headers|
  {
    if headers != [] {
      OthersHave(headers[1..], name);
      var rest := Others(headers[1..]);
      assert ([headers[0]] + rest)[1..] == rest && [] + rest == rest;
      assert [] + Values(headers[1..], name) == Values(headers[1..], name);
    }
  }

  lemma FrontHas(headers: seq<Header>, body: bytes, name: bytes)
    ensures Values(WireHeaders(headers, body), name) ==
      (if body != [] && SameName(CONTENT_LENGTH, name) then [Decimal(|body|)] else []) + Values(Others(headers), name)
  {
    hide Decimal;
    var front := Header(CONTENT_LENGTH, Decimal(|body|));
    assert ([front] + Others(headers))[1..] == Others(headers);
    assert [] + Others(headers) == Others(headers);
  }

  lemma {:induction false} NoneLeftOut(headers: seq<Header>)
    requires Values(headers, CONTENT_LENGTH) == []
    ensures Others(headers) == headers
    decreases |headers|
  {
    if headers != [] {
      NoneLeftOut(headers[1..]);
      assert [headers[0]] + headers[1..] == headers;
    }
  }

  function Field(h: Header): bytes {
    h.name + COLON_SP + h.value + CRLF
  }

  function Fields(headers: seq<Header>): bytes {
    if headers == [] then [] else Field(headers[0]) + Fields(headers[1..])
  }

  function StartLine(m: Message): bytes {
    match m
    case Request(verb, uri, _, _) => verb + [SP] + (uri + [SP] + (RTSP_2_0 + CRLF))
    case Response(status, reason, _, _) => RTSP_2_0 + [SP] + (Decimal(status) + [SP] + (reason + CRLF))
  }

  function Encode(m: Message): bytes {
    StartLine(m) + (Fields(WireHeaders(m.headers, m.body)) + (CRLF + m.body))
  }

  lemma {:induction false} FieldsAppend(a: seq<Header>, b: seq<Header>)
    ensures Fields(a + b) == Fields(a) + Fields(b)
  {
    if a == [] {
      assert a + b == b;
    } else {
      assert (a + b)[1..] == a[1..] + b;
      FieldsAppend(a[1..], b);
    }
  }

  lemma OthersStep(headers: seq<Header>, i: nat)
    requires i < |headers|
    ensures Others(headers[i..]) ==
      (if IsLength(headers[i]) then [] else [headers[i]]) + Others(headers[i + 1..])
  {
    assert headers[i..][1..] == headers[i + 1..];
  }

  method EncodeHeader(name: bytes, value: bytes, buffer: ByteBuffer)
    modifies buffer
    ensures buffer.data == old(buffer.data) + Field(Header(name, value))
  {
    buffer.Extend(name);
    buffer.Extend(COLON_SP);
    buffer.Extend(value);
    buffer.Extend(CRLF);
  }

  lemma FieldsSnoc(headers: seq<Header>, h: Header)
    ensures Fields(headers + [h]) == Fields(headers) + Field(h)
  {
    FieldsAppend(headers, [h]);
    assert Fields([h]) == Field(h) + Fields([]);
  }

  method EncodeLength(body: bytes, buffer: ByteBuffer)
    modifies buffer
    ensures buffer.data == old(buffer.data) + Fields(WireHeaders([], body))
  {
    var bodySize := |body|;
    if bodySize > 0 {
      FieldsSnoc([], Header(CONTENT_LENGTH, Decimal(bodySize)));
      assert WireHeaders([], body) == [] + [Header(CONTENT_LENGTH, Decimal(bodySize))];
      EncodeHeader(CONTENT_LENGTH, Decimal(bodySize), buffer);
    }
  }

  lemma OthersEnd(headers: seq<Header>)
    ensures Others(headers[|headers|..]) == [] && Fields([]) == []
  {
  }

  lemma OtherIsKept(headers: seq<Header>, i: nat, written: seq<Header>)
    requires i < |headers| && !IsLength(headers[i])
    requires written + Others(headers[i..]) == Others(headers)
    ensures written + [headers[i]] + Others(headers[i + 1..]) == Others(headers)
  {
    OthersStep(headers, i);
    hide *;
    var rest := Others(headers[i + 1..]);
    assert written + ([headers[i]] + rest) == written + [headers[i]] + rest;
  }

  lemma FieldIsAppended(before: bytes, written: seq<Header>, h: Header)
    ensures before + Fields(written) + Field(h) == before + Fields(written + [h])
  {
    FieldsSnoc(written, h);
    hide *;
    assert before + Fields(written) + Field(h) == before + (Fields(written) + Field(h));
  }

  method EncodeOthers(headers: seq<Header>, buffer: ByteBuffer)
    modifies buffer
    ensures buffer.data == old(buffer.data) + Fields(Others(headers))
  {
    hide *;
    ghost var before := buffer.data;
    ghost var written: seq<Header> := [];
    OthersEnd(headers);
    assert headers[0..] == headers;
    for i := 0 to |headers|
      invariant written + Others(headers[i..]) == Others(headers)
      invariant buffer.data == before + Fields(written)
    {
      OthersStep(headers, i);
      if !IsLength(headers[i]) {
        OtherIsKept(headers, i, written);
        FieldIsAppended(before, written, headers[i]);
        EncodeHeader(headers[i].name, headers[i].value, buffer);
        written := written + [headers[i]];
      }
    }
    assert written + [] == written;
  }

  lemma HeadersFollowLength(before: bytes, headers: seq<Header>, body: bytes)
    ensures before + Fields(WireHeaders([], body)) + Fields(Others(headers)) ==
      before + Fields(WireHeaders(headers, body))
  {
    var first, others := WireHeaders([], body), Others(headers);
    assert first + others == WireHeaders(headers, body);
    FieldsAppend(first, others);
    hide *;
    assert before + Fields(first) + Fields(others) == before + (Fields(first) + Fields(others));
  }

  method EncodeHeaders(headers: seq<Header>, body: bytes, buffer: ByteBuffer)
    modifies buffer
    ensures buffer.data == old(buffer.data) + Fields(WireHeaders(headers, body))
  {
    HeadersFollowLength(buffer.data, headers, body);
    hide *;
    EncodeLength(body, buffer);
    EncodeOthers(headers, buffer);
  }

  method EncodeHeadersAndBody(headers: seq<Header>, body: bytes, buffer: ByteBuffer)
    modifies buffer
    ensures buffer.data == old(buffer.data) + (Fields(WireHeaders(headers, body)) + (CRLF + body))
  {
    EncodeHeaders(headers, body, buffer);
    buffer.Extend(CRLF);
    buffer.Extend(body);
  }

  method EncodeRequestLine(request: Message, buffer: ByteBuffer)
    requires request.Request?
    modifies buffer
    ensures buffer.data == old(buffer.data) + StartLine(request)
  {
    buffer.Extend(request.verb);
    buffer.Extend([SP]);
    buffer.Extend(request.uri);
    buffer.Extend([SP]);
    buffer.Extend(RTSP_2_0);
    buffer.Extend(CRLF);
  }

  method EncodeStatusLine(response: Message, buffer: ByteBuffer)
    requires response.Response?
    modifies buffer
    ensures buffer.data == old(buffer.data) + StartLine(response)
  {
    buffer.Extend(RTSP_2_0);
    buffer.Extend([SP]);
    buffer.Extend(Decimal(response.status));
    buffer.Extend([SP]);
    buffer.Extend(response.reason);
    buffer.Extend(CRLF);
  }

  method EncodeRequest(request: Message, buffer: ByteBuffer)
    requires request.Request?
    modifies buffer
    ensures buffer.data == old(buffer.data) + Encode(request)
  {
    hide StartLine, Fields, WireHeaders;
    EncodeRequestLine(request, buffer);
    EncodeHeadersAndBody(request.headers, request.body, buffer);
  }

  method EncodeResponse(response: Message, buffer: ByteBuffer)
    requires response.Response?
    modifies buffer
    ensures buffer.data == old(buffer.data) + Encode(response)
  {
    hide StartLine, Fields, WireHeaders;
    EncodeStatusLine(response, buffer);
    EncodeHeadersAndBody(response.headers, response.body, buffer);
  }
}
