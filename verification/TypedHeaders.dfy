/** Headers read and written through their types. */
module TypedHeaders {
  import opened Bytes
  import opened Syntax
  import opened Decoding
  import opened CSeqs
  import Wires

  const CSEQ: bytes := [67, 83, 101, 113]
  const DATE: bytes := [68, 97, 116, 101]
  const CONTENT_TYPE: bytes := [67, 111, 110, 116, 101, 110, 116, 45, 84, 121, 112, 101]

  function Without(headers: seq<Header>, name: bytes): seq<Header> {
    if headers == [] then []
    else (if SameName(headers[0].name, name) then [] else [headers[0]]) + Without(headers[1..], name)
  }

  /** One value for the name: it takes the place of the first old one, and the other old ones go. */
  function Insert(headers: seq<Header>, name: bytes, value: bytes): seq<Header> {
    if headers == [] then [Header(name, value)]
    else if SameName(headers[0].name, name) then
      [Header(headers[0].name, value)] + Without(headers[1..], name)
    else [headers[0]] + Insert(headers[1..], name, value)
  }

  lemma {:induction false} WithoutHas(headers: seq<Header>, name: bytes, other: bytes)
    ensures Values(Without(headers, name), other) ==
      if SameName(name, other) then [] else Values(headers, other)
  {
    if headers != [] {
      WithoutHas(headers[1..], name, other);
      var rest := Without(headers[1..], name);
      assert ([headers[0]] + rest)[1..] == rest;
      assert [] + rest == rest && [] + Values(headers[1..], other) == Values(headers[1..], other);
    }
  }

  /** An inserted header is read back alone, and no other header changes. */
  lemma {:induction false} InsertHas(headers: seq<Header>, name: bytes, value: bytes, other: bytes)
    ensures Values(Insert(headers, name, value), other) ==
      if SameName(name, other) then [value] else Values(headers, other)
  {
    if headers == [] {
      assert [Header(name, value)][1..] == [];
    } else if SameName(headers[0].name, name) {
      var h, rest := Header(headers[0].name, value), Without(headers[1..], name);
      assert ([h] + rest)[1..] == rest;
      WithoutHas(headers[1..], name, other);
    } else {
      var rest := Insert(headers[1..], name, value);
      assert ([headers[0]] + rest)[1..] == rest;
      InsertHas(headers[1..], name, value, other);
    }
  }

  /** The sequence number of a message: none if the header is absent, repeated or not a number up to
      the maximum. */
  function CSeqOf(m: Message): Option<cseq> {
    var values := Values(m.headers, CSEQ);
    if |values| != 1 then None
    else
      var n := ParseLength(values[0]);
      if n.None? || n.value > MAX_CSEQ then None else Some(n.value)
  }

  /** It is that of the only header of its name, a decimal number up to the maximum. */
  lemma CSeqExact(m: Message, c: cseq)
    ensures CSeqOf(m) == Some(c) <==>
      exists i: nat :: Wires.IsOnly(m.headers, CSEQ, i) && Wires.IsLengthText(m.headers[i].value, c)
  {
    hide Values, Wires.IsLengthText, ParseLength;
    if |Values(m.headers, CSEQ)| == 1 {
      var i := Wires.OnlyOne(m.headers, CSEQ);
      Wires.LengthTextExact(m.headers[i].value, c);
    }
    forall i: nat | Wires.IsOnly(m.headers, CSEQ, i)
      ensures Values(m.headers, CSEQ) == [m.headers[i].value]
      ensures Wires.IsLengthText(m.headers[i].value, c) <==> ParseLength(m.headers[i].value) == Some(c)
    {
      Wires.OnlyValue(m.headers, CSEQ, i);
      Wires.LengthTextExact(m.headers[i].value, c);
    }
  }

  function WithCSeq(m: Message, c: cseq): Message {
    m.(headers := Insert(m.headers, CSEQ, Decimal(c)))
  }

  function WithDate(m: Message, date: bytes): Message {
    m.(headers := Insert(m.headers, DATE, date))
  }

  /** The same but for its headers. */
  predicate IsSameMessage(m: Message, m': Message) {
    && m'.body == m.body
    && match m
       case Request(verb, uri, _, _) => m'.Request? && m'.verb == verb && m'.uri == uri
       case Response(status, reason, _, _) => m'.Response? && m'.status == status && m'.reason == reason
  }

  /** The number put on a message is the one read from it, and nothing else of the message changes. */
  lemma CSeqReadsBack(m: Message, c: cseq)
    ensures CSeqOf(WithCSeq(m, c)) == Some(c) && IsSameMessage(m, WithCSeq(m, c))
    ensures forall name :: !SameName(CSEQ, name) ==> Values(WithCSeq(m, c).headers, name) == Values(m.headers, name)
  {
    InsertHas(m.headers, CSEQ, Decimal(c), CSEQ);
    DecimalRoundTrip(c);
    forall name | !SameName(CSEQ, name)
      ensures Values(WithCSeq(m, c).headers, name) == Values(m.headers, name)
    {
      InsertHas(m.headers, CSEQ, Decimal(c), name);
    }
  }

  /** Stamping a message with the date leaves its sequence number alone. */
  lemma DateKeepsCSeq(m: Message, date: bytes)
    ensures CSeqOf(WithDate(m, date)) == CSeqOf(m)
    ensures Values(WithDate(m, date).headers, DATE) == [date] && IsSameMessage(m, WithDate(m, date))
    ensures forall name :: !SameName(DATE, name) ==> Values(WithDate(m, date).headers, name) == Values(m.headers, name)
  {
    forall name | !SameName(DATE, name)
      ensures Values(WithDate(m, date).headers, name) == Values(m.headers, name)
    {
      InsertHas(m.headers, DATE, date, name);
    }
    assert Lower(DATE)[0] != Lower(CSEQ)[0];
    InsertHas(m.headers, DATE, date, CSEQ);
    InsertHas(m.headers, DATE, date, DATE);
  }
}
