/** What the bytes of a message may be, said without the decoder, and that the decoder reads exactly that. */
module Wires {
  import opened Bytes
  import opened Syntax
  import opened Decoding

  // ---------------------------------------------------------------- the pieces of a message

  /** A header line by its bytes before the colon, and behind it up to its line break. */
  datatype Field = Field(name: bytes, value: bytes)

  datatype Pieces =
    | RequestPieces(verb: bytes, uri: bytes, version: bytes, fields: seq<Field>, body: bytes)
    | ResponsePieces(version: bytes, code: bytes, reason: bytes, fields: seq<Field>, body: bytes)

  function LineText(p: Pieces): bytes {
    match p
    case RequestPieces(verb, uri, version, _, _) => verb + [SP] + (uri + [SP]) + (version + CRLF)
    case ResponsePieces(version, code, reason, _, _) => version + [SP] + (code + [SP]) + (reason + CRLF)
  }

  function FieldText(f: Field): bytes {
    f.name + [COLON] + (f.value + CRLF)
  }

  function FieldsText(fields: seq<Field>): bytes {
    if fields == [] then [] else FieldsText(fields[..|fields| - 1]) + FieldText(fields[|fields| - 1])
  }

  function Text(p: Pieces): bytes {
    LineText(p) + FieldsText(p.fields) + CRLF + p.body
  }

  // ---------------------------------------------------------------- which pieces are a message

  predicate IsMethodWord(cfg: Config, word: bytes) {
    IsToken(word) && word[0] != 36 && |word| <= cfg.methodMax
  }

  predicate IsUriWord(cfg: Config, word: bytes, uri: bytes) {
    SP !in word && |word| <= cfg.uriMax && cfg.parseUri(word) == Some(uri)
  }

  /** The protocol's name in any case, and then 2.0. */
  predicate IsVersion20(word: bytes) {
    |word| == 8 && Upper(word[..5]) == RTSP_SLASH && word[5..] == [50, 46, 48]
  }

  /** What a byte is worth as a digit; below the digits the difference wraps around. */
  function Weight(b: byte): nat {
    if b >= 48 then b - 48 else b + 208
  }

  predicate IsCode(word: bytes, status: nat) {
    && |word| == 3 && IsStatus(status)
    && status == 100 * Weight(word[0]) + 10 * Weight(word[1]) + Weight(word[2])
  }

  /** One byte more than the limit is let through. */
  predicate IsReasonWord(cfg: Config, word: bytes) {
    && word != [] && |word| <= cfg.reasonMax + 1 && IsUtf8(word)
    && forall i :: 0 <= i < |word| ==> IsTextByte(word[i])
  }

  /** The spelling under which a name is kept: that of an equal name before it, else the standard one, else
      its own. */
  ghost predicate SpelledAs(standard: seq<bytes>, before: seq<Header>, name: bytes, kept: bytes) {
    if exists i :: 0 <= i < |before| && SameName(before[i].name, name) then
      forall i :: 0 <= i < |before| && SameName(before[i].name, name) ==> kept == before[i].name
    else if exists k :: 0 <= k < |standard| && SameName(standard[k], name) then
      exists k: nat :: IsFirstSpelling(standard, name, k) && kept == standard[k]
    else kept == name
  }

  predicate IsFirstSpelling(standard: seq<bytes>, name: bytes, k: nat) {
    && k < |standard| && SameName(standard[k], name)
    && forall j :: 0 <= j < k ==> !SameName(standard[j], name)
  }

  /** A header line within its limits, and the header that it gives: blanks are cut off behind the name
      and in front of the value, and the value is text whose line breaks are folds. */
  ghost predicate IsField(cfg: Config, before: seq<Header>, f: Field, h: Header) {
    && COLON !in f.name && |f.name| <= cfg.nameMax
    && (exists n: nat :: IsTrimmedName(f.name, n) && IsToken(f.name[..n])
          && SpelledAs(cfg.standardNames, before, f.name[..n], h.name))
    && |f.value| <= cfg.valueMax && IsFolded(f.value) && IsUtf8(f.value)
    && IsTail(f.value, h.value) && IsTrimmedValue(f.value, |f.value| - |h.value|)
  }

  predicate IsTail(s: bytes, t: bytes) {
    |t| <= |s| && t == s[|s| - |t|..]
  }

  ghost predicate AreFields(cfg: Config, fields: seq<Field>, headers: seq<Header>) {
    && |fields| == |headers| <= cfg.headerMaxCount
    && forall i :: 0 <= i < |fields| ==> IsField(cfg, headers[..i], fields[i], headers[i])
  }

  predicate IsLengthText(s: bytes, n: nat) {
    && Unsigned(s) != [] && AreDigits(Unsigned(s))
    && n == DigitsValue(Unsigned(s)) && n <= MAX_CONTENT_LENGTH
  }

  predicate IsOnly(headers: seq<Header>, name: bytes, i: nat) {
    && i < |headers| && SameName(headers[i].name, name)
    && forall j :: 0 <= j < |headers| && j != i ==> !SameName(headers[j].name, name)
  }

  predicate HasNo(headers: seq<Header>, name: bytes) {
    forall i :: 0 <= i < |headers| ==> !SameName(headers[i].name, name)
  }

  /** The length of the body is that of the only content length, or zero if there is none. */
  ghost predicate Declares(headers: seq<Header>, n: nat) {
    || (HasNo(headers, CONTENT_LENGTH) && n == 0)
    || exists i: nat :: IsOnly(headers, CONTENT_LENGTH, i) && IsLengthText(headers[i].value, n)
  }

  predicate IsLine(cfg: Config, p: Pieces, m: Message) {
    match p
    case RequestPieces(verb, uri, version, _, _) =>
      && m.Request?
      && IsMethodWord(cfg, verb) && m.verb == Upper(verb)
      && IsUriWord(cfg, uri, m.uri)
      && IsVersion20(version)
    case ResponsePieces(version, code, reason, _, _) =>
      && m.Response?
      && IsVersion20(version)
      && IsCode(code, m.status)
      && IsReasonWord(cfg, reason)
      && m.reason == (if cfg.canonicalReason(m.status).Some? then cfg.canonicalReason(m.status).value else reason)
  }

  /** The pieces are within every limit, and are read as this message. */
  ghost predicate Legible(cfg: Config, p: Pieces, m: Message) {
    && IsLine(cfg, p, m)
    && AreFields(cfg, p.fields, m.headers)
    && Declares(m.headers, |p.body|) && |p.body| <= cfg.bodyMax && m.body == p.body
  }

  // ---------------------------------------------------------------- names

  /** The header map spells equal names alike. */
  predicate AreCoherent(headers: seq<Header>) {
    forall i, j :: 0 <= i < j < |headers| && SameName(headers[i].name, headers[j].name) ==>
      headers[i].name == headers[j].name
  }

  lemma {:induction false} StoredIs(headers: seq<Header>, name: bytes)
    ensures HasNo(headers, name) ==> StoredName(headers, name) == name
    ensures !HasNo(headers, name) ==>
      exists i :: 0 <= i < |headers| && SameName(headers[i].name, name) && StoredName(headers, name) == headers[i].name
    decreases |headers|
  {
    if headers != [] && !SameName(headers[0].name, name) {
      StoredIs(headers[1..], name);
      if !HasNo(headers[1..], name) {
        var i :| 0 <= i < |headers[1..]| && SameName(headers[1..][i].name, name)
          && StoredName(headers[1..], name) == headers[1..][i].name;
        assert headers[i + 1] == headers[1..][i];
      }
      assert HasNo(headers, name) <==> HasNo(headers[1..], name) by {
        assert forall i :: 0 < i < |headers| ==> headers[i] == headers[1..][i - 1];
        assert forall i :: 0 <= i < |headers[1..]| ==> headers[1..][i] == headers[i + 1];
      }
    }
  }

  lemma {:induction false} CanonicalIs(standard: seq<bytes>, name: bytes)
    ensures (forall k :: 0 <= k < |standard| ==> !SameName(standard[k], name)) ==> Canonical(standard, name) == name
    ensures forall k: nat :: IsFirstSpelling(standard, name, k) ==> Canonical(standard, name) == standard[k]
    ensures (exists k :: 0 <= k < |standard| && SameName(standard[k], name)) ==>
      exists k: nat :: IsFirstSpelling(standard, name, k)
    decreases |standard|
  {
    if standard != [] {
      var rest := standard[1..];
      assert forall k :: 0 < k < |standard| ==> standard[k] == rest[k - 1];
      if SameName(standard[0], name) {
        assert IsFirstSpelling(standard, name, 0);
      } else {
        CanonicalIs(rest, name);
        forall k: nat | IsFirstSpelling(standard, name, k) ensures 0 < k && IsFirstSpelling(rest, name, k - 1) {
          assert forall j :: 0 <= j < k - 1 ==> rest[j] == standard[j + 1];
        }
        forall k: nat | IsFirstSpelling(rest, name, k) ensures IsFirstSpelling(standard, name, k + 1) {
        }
      }
    }
  }

  /** The decoder keeps exactly that spelling. */
  lemma SpellingExact(standard: seq<bytes>, before: seq<Header>, name: bytes, kept: bytes)
    requires AreCoherent(before)
    ensures SpelledAs(standard, before, name, kept) <==> kept == StoredName(before, Canonical(standard, name))
    ensures SpelledAs(standard, before, name, kept) ==> SameName(kept, name)
  {
    var n := Canonical(standard, name);
    StoredIs(before, n);
    CanonicalIs(standard, name);
    assert SameName(n, name);
    assert forall i :: 0 <= i < |before| ==> (SameName(before[i].name, name) <==> SameName(before[i].name, n));
    if exists i :: 0 <= i < |before| && SameName(before[i].name, name) {
      assert !HasNo(before, n);
    } else {
      assert HasNo(before, n);
    }
  }

  // ---------------------------------------------------------------- values

  lemma TailOfTail(s: bytes, i: nat)
    requires i < |s|
    ensures s[i..][1..] == s[i + 1..] && s[i..][0] == s[i]
  {
  }

  lemma {:induction false} BlanksAreText(s: bytes, i: nat)
    requires i <= |s|
    ensures var t := s[SkipBlanks(s, i)..];
      (IsFolded(s[i..]) <==> IsFolded(t)) && (IsUtf8(s[i..]) <==> IsUtf8(t))
    decreases |s| - i
  {
    if i < |s| && IsBlank(s[i]) {
      TailOfTail(s, i);
      BlanksAreText(s, i + 1);
      FoldedTail(s[i..], 1);
    }
  }

  lemma AsciiInFront(s: bytes)
    requires s != [] && s[0] < 0x80
    ensures IsUtf8(s) <==> IsUtf8(s[1..])
  {
  }

  /** What is cut off in front of a value does not decide whether it is text. */
  lemma TrimKeepsText(s: bytes)
    ensures var v := TrimValue(s); (IsFolded(v) <==> IsFolded(s)) && (IsUtf8(v) <==> IsUtf8(s))
  {
    assert s[0..] == s;
    if StartsWith(s, CRLF) {
      assert s[..2] == CRLF && s[0] == CR && s[1] == LF;
      var i := SkipBlanks(s, 2);
      if i > 2 {
        TailOfTail(s, 1);
        TailOfTail(s, 2);
        AsciiInFront(s);
        AsciiInFront(s[1..]);
        AsciiInFront(s[2..]);
        BlanksAreText(s, 3);
        FoldedTail(s, 3);
        assert SkipBlanks(s, 2) == SkipBlanks(s, 3);
      }
    } else {
      BlanksAreText(s, 0);
    }
  }

  lemma TrimUnique(s: bytes, m: nat, n: nat)
    requires IsTrimmedValue(s, m) && IsTrimmedValue(s, n)
    ensures m <= n
  {
    assert n < |s| ==> !IsBlank(s[n]) || (StartsWith(s, CRLF) && n == 0 && m == 0);
  }

  lemma TrimExact(s: bytes, t: bytes)
    ensures IsTail(s, t) && IsTrimmedValue(s, |s| - |t|) <==> t == TrimValue(s)
  {
    hide IsTrimmedValue, TrimValue;
    TrimValueRemoves(s);
    if IsTail(s, t) && IsTrimmedValue(s, |s| - |t|) {
      TrimUnique(s, |s| - |t|, |s| - |TrimValue(s)|);
      TrimUnique(s, |s| - |TrimValue(s)|, |s| - |t|);
    }
  }

  lemma TrimNameExact(s: bytes, n: nat)
    ensures IsTrimmedName(s, n) <==> n == |TrimName(s)|
  {
    var k := |TrimName(s)|;
    if IsTrimmedName(s, n) {
      assert n > 0 ==> !IsBlank(s[n - 1]);
      assert k > 0 ==> !IsBlank(s[k - 1]);
    }
  }

  // ---------------------------------------------------------------- the declared length

  lemma {:induction false} NoValues(headers: seq<Header>, name: bytes)
    ensures HasNo(headers, name) <==> Values(headers, name) == []
    decreases |headers|
  {
    if headers != [] {
      NoValues(headers[1..], name);
      assert forall i :: 0 < i < |headers| ==> headers[i] == headers[1..][i - 1];
      assert forall i :: 0 <= i < |headers[1..]| ==> headers[1..][i] == headers[i + 1];
    }
  }

  lemma {:induction false} OnlyValue(headers: seq<Header>, name: bytes, i: nat)
    requires IsOnly(headers, name, i)
    ensures Values(headers, name) == [headers[i].value]
    decreases |headers|
  {
    assert forall j :: 0 < j < |headers| ==> headers[j] == headers[1..][j - 1];
    if i == 0 {
      NoValues(headers[1..], name);
    } else {
      assert headers[1..][i - 1] == headers[i];
      OnlyValue(headers[1..], name, i - 1);
    }
  }

  lemma {:induction false} OnlyOne(headers: seq<Header>, name: bytes) returns (i: nat)
    requires |Values(headers, name)| == 1
    ensures IsOnly(headers, name, i) && Values(headers, name) == [headers[i].value]
    decreases |headers|
  {
    var rest := headers[1..];
    assert forall j :: 0 < j < |headers| ==> headers[j] == rest[j - 1];
    if SameName(headers[0].name, name) {
      i := 0;
      NoValues(rest, name);
    } else {
      var k := OnlyOne(rest, name);
      i := k + 1;
      assert headers[i] == rest[k];
    }
  }

  lemma LengthTextExact(s: bytes, n: nat)
    ensures IsLengthText(s, n) <==> ParseLength(s) == Some(n)
  {
  }

  lemma DeclaresExact(headers: seq<Header>, n: nat)
    ensures Declares(headers, n) <==> DeclaredLength(headers) == Some(n)
  {
    hide ParseLength, IsLengthText, Values, IsOnly;
    NoValues(headers, CONTENT_LENGTH);
    if |Values(headers, CONTENT_LENGTH)| == 1 {
      var i := OnlyOne(headers, CONTENT_LENGTH);
      LengthTextExact(headers[i].value, n);
    }
    forall i: nat | IsOnly(headers, CONTENT_LENGTH, i)
      ensures i < |headers| && Values(headers, CONTENT_LENGTH) == [headers[i].value]
      ensures IsLengthText(headers[i].value, n) <==> ParseLength(headers[i].value) == Some(n)
    {
      OnlyIsThere(headers, CONTENT_LENGTH, i);
      OnlyValue(headers, CONTENT_LENGTH, i);
      LengthTextExact(headers[i].value, n);
    }
  }

  lemma OnlyIsThere(headers: seq<Header>, name: bytes, i: nat)
    requires IsOnly(headers, name, i)
    ensures i < |headers|
  {
  }

  // ---------------------------------------------------------------- a message read so far

  predicate VerbRead(cfg: Config, p: Pieces, b: Builder) {
    p.RequestPieces? && IsMethodWord(cfg, p.verb) && b.verb == Some(Upper(p.verb))
  }

  predicate UriRead(cfg: Config, p: Pieces, b: Builder) {
    p.RequestPieces? && b.uri.Some? && IsUriWord(cfg, p.uri, b.uri.value)
  }

  predicate LineRead(cfg: Config, p: Pieces, b: Builder) {
    && IsVersion20(p.version)
    && match p
       case RequestPieces(_, _, _, _, _) =>
         VerbRead(cfg, p, b) && UriRead(cfg, p, b) && b.reason.None? && b.status == 200
       case ResponsePieces(_, code, reason, _, _) =>
         && b.verb.None? && b.uri.None?
         && IsCode(code, b.status) && IsReasonWord(cfg, reason) && b.reason == Some(reason)
  }

  /** The decoder is in the middle of these pieces; those it has not reached do not matter. */
  ghost predicate SoFar(cfg: Config, d: Dec, p: Pieces) {
    var b := d.builder;
    && (d.kind == RequestKind <==> p.RequestPieces?)
    && match d.phase
       case AtMethod => p.RequestPieces? && b == EMPTY_BUILDER
       case AtUri => VerbRead(cfg, p, b) && b == EMPTY_BUILDER.(verb := b.verb)
       case AtVersion =>
         if p.RequestPieces? then
           VerbRead(cfg, p, b) && UriRead(cfg, p, b) && b == EMPTY_BUILDER.(verb := b.verb, uri := b.uri)
         else b == EMPTY_BUILDER
       case AtStatus => p.ResponsePieces? && IsVersion20(p.version) && b == EMPTY_BUILDER
       case AtReason =>
         && p.ResponsePieces? && IsVersion20(p.version) && IsCode(p.code, b.status)
         && b == EMPTY_BUILDER.(status := b.status)
       case AtHeader => LineRead(cfg, p, b) && AreFields(cfg, p.fields, b.headers) && b.body.None?
       case AtBody =>
         && LineRead(cfg, p, b) && AreFields(cfg, p.fields, b.headers) && b.body.None?
         && Declares(b.headers, d.contentLength) && d.contentLength <= cfg.bodyMax
       case AtEnd =>
         && LineRead(cfg, p, b) && AreFields(cfg, p.fields, b.headers) && b.body == Some(p.body)
         && Declares(b.headers, |p.body|) && |p.body| <= cfg.bodyMax
       case Failed(_) => false
  }

  /** A header line is known to be over by the byte behind it. */
  predicate GoesOn(d: Dec, rest: bytes) {
    d.phase == AtHeader && d.builder.headers != [] ==> rest != [] && !IsBlank(rest[0])
  }

  function TextUpTo(phase: Phase, p: Pieces): bytes {
    match phase
    case AtMethod => []
    case AtUri => if p.RequestPieces? then p.verb + [SP] else []
    case AtVersion => if p.RequestPieces? then p.verb + [SP] + (p.uri + [SP]) else []
    case AtStatus => p.version + [SP]
    case AtReason => if p.ResponsePieces? then p.version + [SP] + (p.code + [SP]) else []
    case AtHeader => LineText(p) + FieldsText(p.fields)
    case AtBody => LineText(p) + FieldsText(p.fields) + CRLF
    case AtEnd => Text(p)
    case Failed(_) => []
  }

  // ---------------------------------------------------------------- words of the start line

  lemma WordIndex(word: bytes, b: byte, tail: bytes, limit: nat)
    requires b !in word && |word| <= limit
    ensures var buf := word + [b] + tail;
      && IndexOf(buf, b, limit + 1) == Some(|word|)
      && buf[..|word|] == word && buf[|word| + 1..] == tail
  {
    var buf := word + [b] + tail;
    assert buf[|word|] == b;
    assert forall i :: 0 <= i < |word| ==> buf[i] == word[i];
  }

  lemma VerbIsRead(cfg: Config, d: Dec, buf: bytes) returns (word: bytes)
    requires d.phase == AtMethod && Wf(d) && DecStep(cfg, d, buf).More?
    ensures IsMethodWord(cfg, word) && DecStep(cfg, d, buf).used == |word| + 1
    ensures DecStep(cfg, d, buf).next == d.(phase := AtUri, builder := d.builder.(verb := Some(Upper(word))))
    ensures buf[..|word| + 1] == word + [SP]
  {
    word := buf[..IndexOf(buf, SP, cfg.methodMax + 1).value];
  }

  lemma VerbIsTaken(cfg: Config, d: Dec, word: bytes, tail: bytes)
    requires d.phase == AtMethod && IsMethodWord(cfg, word) && Wf(d)
    ensures DecStep(cfg, d, word + [SP] + tail) ==
      More(d.(phase := AtUri, builder := d.builder.(verb := Some(Upper(word)))), |word| + 1, None)
  {
    assert forall i :: 0 <= i < |word| ==> IsTokenByte(word[i]);
    WordIndex(word, SP, tail, cfg.methodMax);
  }

  lemma UriIsRead(cfg: Config, d: Dec, buf: bytes) returns (word: bytes, uri: bytes)
    requires d.phase == AtUri && Wf(d) && DecStep(cfg, d, buf).More?
    ensures IsUriWord(cfg, word, uri) && DecStep(cfg, d, buf).used == |word| + 1
    ensures DecStep(cfg, d, buf).next == d.(phase := AtVersion, builder := d.builder.(uri := Some(uri)))
    ensures buf[..|word| + 1] == word + [SP]
  {
    word := buf[..IndexOf(buf, SP, cfg.uriMax + 1).value];
    uri := cfg.parseUri(word).value;
  }

  lemma UriIsTaken(cfg: Config, d: Dec, word: bytes, uri: bytes, tail: bytes)
    requires d.phase == AtUri && Wf(d) && IsUriWord(cfg, word, uri)
    ensures DecStep(cfg, d, word + [SP] + tail) ==
      More(d.(phase := AtVersion, builder := d.builder.(uri := Some(uri))), |word| + 1, None)
  {
    WordIndex(word, SP, tail, cfg.uriMax);
  }

  lemma VersionExact(word: bytes)
    requires |word| == 8
    ensures ParseVersion(word) == Ok(Rtsp20) <==> IsVersion20(word)
  {
    assert word[5..] == [word[5], word[6], word[7]];
  }

  function VersionEnd(kind: Kind): bytes {
    if kind == RequestKind then CRLF else [SP]
  }

  lemma VersionIsRead(cfg: Config, d: Dec, buf: bytes) returns (word: bytes)
    requires d.phase == AtVersion && Wf(d) && DecStep(cfg, d, buf).More?
    ensures IsVersion20(word) && DecStep(cfg, d, buf).used == |word| + |VersionEnd(d.kind)|
    ensures DecStep(cfg, d, buf).next == d.(phase := if d.kind == RequestKind then AtHeader else AtStatus)
    ensures buf[..|word| + |VersionEnd(d.kind)|] == word + VersionEnd(d.kind)
  {
    word := buf[..8];
    VersionExact(word);
    hide ParseVersion, IsVersion20;
    var width := 8 + |VersionEnd(d.kind)|;
    assert buf[..width] == buf[..8] + buf[8..width];
  }

  lemma VersionIsTaken(cfg: Config, d: Dec, word: bytes, tail: bytes)
    requires d.phase == AtVersion && Wf(d) && IsVersion20(word)
    ensures DecStep(cfg, d, word + VersionEnd(d.kind) + tail) ==
      More(d.(phase := if d.kind == RequestKind then AtHeader else AtStatus), |word| + |VersionEnd(d.kind)|, None)
  {
    VersionExact(word);
    hide ParseVersion;
    var buf := word + VersionEnd(d.kind) + tail;
    var width := 8 + |VersionEnd(d.kind)|;
    assert buf[..8] == word && buf[8..width] == VersionEnd(d.kind);
  }

  lemma CodeExact(word: bytes, status: nat)
    requires |word| == 3
    ensures ParseStatus(word) == Ok(status) <==> IsCode(word, status)
  {
  }

  lemma CodeIsRead(cfg: Config, d: Dec, buf: bytes) returns (word: bytes, status: nat)
    requires d.phase == AtStatus && Wf(d) && DecStep(cfg, d, buf).More?
    ensures IsCode(word, status) && DecStep(cfg, d, buf).used == |word| + 1
    ensures DecStep(cfg, d, buf).next == d.(phase := AtReason, builder := d.builder.(status := status))
    ensures buf[..|word| + 1] == word + [SP]
  {
    word, status := buf[..3], ParseStatus(buf[..3]).value;
    CodeExact(word, status);
  }

  lemma CodeIsTaken(cfg: Config, d: Dec, word: bytes, status: nat, tail: bytes)
    requires d.phase == AtStatus && Wf(d) && IsCode(word, status)
    ensures DecStep(cfg, d, word + [SP] + tail) ==
      More(d.(phase := AtReason, builder := d.builder.(status := status)), |word| + 1, None)
  {
    CodeExact(word, status);
    hide ParseStatus;
    var buf := word + [SP] + tail;
    assert buf[..3] == word && buf[3] == SP;
  }

  lemma ReasonExact(word: bytes)
    ensures ParseReason(word).Ok? ==> ParseReason(word) == Ok(word)
    ensures ParseReason(word).Ok? <==>
      word != [] && IsUtf8(word) && forall i :: 0 <= i < |word| ==> IsTextByte(word[i])
  {
  }

  lemma ReasonIsRead(cfg: Config, d: Dec, buf: bytes) returns (word: bytes)
    requires d.phase == AtReason && Wf(d) && DecStep(cfg, d, buf).More?
    ensures IsReasonWord(cfg, word) && DecStep(cfg, d, buf).used == |word| + 2
    ensures DecStep(cfg, d, buf).next == d.(phase := AtHeader, builder := d.builder.(reason := Some(word)))
    ensures buf[..|word| + 2] == word + CRLF
  {
    var i := CrlfFrom(buf, 0, cfg.reasonMax + 2).value;
    word := buf[..i];
    ReasonExact(word);
  }

  lemma ReasonIsTaken(cfg: Config, d: Dec, word: bytes, tail: bytes)
    requires d.phase == AtReason && Wf(d) && IsReasonWord(cfg, word)
    ensures DecStep(cfg, d, word + CRLF + tail) ==
      More(d.(phase := AtHeader, builder := d.builder.(reason := Some(word))), |word| + 2, None)
  {
    ReasonExact(word);
    hide ParseReason;
    var buf := word + CRLF + tail;
    assert IsCrlfAt(buf, |word|);
    forall j: nat | j < |word| ensures !IsCrlfAt(buf, j) {
      assert buf[j] == word[j] && IsTextByte(word[j]);
    }
    assert buf[..|word|] == word;
  }

  // ---------------------------------------------------------------- headers

  lemma ValueExact(s: bytes)
    ensures ParseHeaderValue(s).Ok? ==> ParseHeaderValue(s) == Ok(s)
    ensures ParseHeaderValue(s).Ok? <==> IsUtf8(s) && IsFolded(s)
  {
    TextAcceptedIffFolded(s);
  }

  lemma NameExact(standard: seq<bytes>, s: bytes)
    ensures ParseHeaderName(standard, s).Ok? ==> ParseHeaderName(standard, s) == Ok(Canonical(standard, s))
    ensures ParseHeaderName(standard, s).Ok? <==> IsToken(s)
  {
  }

  lemma FieldWhen(cfg: Config, before: seq<Header>, f: Field, h: Header)
    requires AreCoherent(before) && COLON !in f.name && |f.name| <= cfg.nameMax && |f.value| <= cfg.valueMax
    ensures var n, v := TrimName(f.name), TrimValue(f.value);
      IsField(cfg, before, f, h) <==>
        && IsToken(n) && IsUtf8(v) && IsFolded(v)
        && h == Header(StoredName(before, Canonical(cfg.standardNames, n)), v)
  {
    hide SpelledAs, IsTrimmedValue, Canonical, StoredName, IsToken, IsFolded, IsUtf8, IsTail;
    var n, v := TrimName(f.name), TrimValue(f.value);
    TrimKeepsText(f.value);
    TrimExact(f.value, h.value);
    SpellingExact(cfg.standardNames, before, n, h.name);
    assert f.name[..|n|] == n;
    forall k: nat ensures IsTrimmedName(f.name, k) <==> k == |n| {
      TrimNameExact(f.name, k);
    }
  }

  /** The pieces on the two sides of the colon are accepted just when they are a field. */
  lemma FieldIsAdded(cfg: Config, b: Builder, f: Field)
    requires AreCoherent(b.headers) && COLON !in f.name && |f.name| <= cfg.nameMax && |f.value| <= cfg.valueMax
    ensures var r := AddHeader(cfg, b, f.name, f.value);
      r.Ok? ==> exists h :: IsField(cfg, b.headers, f, h) && r == Ok(b.(headers := b.headers + [h]))
    ensures forall h :: IsField(cfg, b.headers, f, h) ==>
      AddHeader(cfg, b, f.name, f.value) == Ok(b.(headers := b.headers + [h]))
  {
    hide ParseHeaderName, ParseHeaderValue, Canonical, StoredName, IsToken, IsFolded, IsUtf8, IsField;
    hide TrimName, TrimValue;
    var n, v := TrimName(f.name), TrimValue(f.value);
    NameExact(cfg.standardNames, n);
    ValueExact(v);
    forall h ensures IsField(cfg, b.headers, f, h) <==>
      && IsToken(n) && IsUtf8(v) && IsFolded(v)
      && h == Header(StoredName(b.headers, Canonical(cfg.standardNames, n)), v)
    {
      FieldWhen(cfg, b.headers, f, h);
    }
    var h := Header(StoredName(b.headers, Canonical(cfg.standardNames, n)), v);
    assert IsField(cfg, b.headers, f, h) <==> IsToken(n) && IsUtf8(v) && IsFolded(v);
  }

  lemma FieldKeepsCoherent(cfg: Config, before: seq<Header>, f: Field, h: Header)
    requires AreCoherent(before) && IsField(cfg, before, f, h)
    ensures AreCoherent(before + [h])
  {
    hide IsTail, IsTrimmedValue, IsFolded, IsUtf8, IsToken;
    var n: nat :| IsTrimmedName(f.name, n) && IsToken(f.name[..n])
      && SpelledAs(cfg.standardNames, before, f.name[..n], h.name);
    SpellingExact(cfg.standardNames, before, f.name[..n], h.name);
    hide IsField;
  }

  lemma {:induction false} FieldsAreCoherent(cfg: Config, fields: seq<Field>, headers: seq<Header>)
    requires AreFields(cfg, fields, headers)
    ensures AreCoherent(headers)
    decreases |headers|
  {
    hide IsField;
    if headers != [] {
      var n := |headers| - 1;
      assert IsField(cfg, headers[..n], fields[n], headers[n]);
      forall i | 0 <= i < n ensures IsField(cfg, headers[..n][..i], fields[..n][i], headers[..n][i]) {
        assert headers[..n][..i] == headers[..i];
      }
      FieldsAreCoherent(cfg, fields[..n], headers[..n]);
      FieldKeepsCoherent(cfg, headers[..n], fields[n], headers[n]);
      assert headers[..n] + [headers[n]] == headers;
    }
  }

  lemma FoldsDoNotEnd(v: bytes, tail: bytes)
    requires IsFolded(v) && tail != [] && !IsBlank(tail[0])
    ensures var s := v + CRLF + tail;
      IsTerminatorAt(s, |v|) && forall j: nat :: j < |v| ==> !IsTerminatorAt(s, j)
  {
    var s := v + CRLF + tail;
    assert s[|v|] == CR && s[|v| + 1] == LF && s[|v| + 2] == tail[0];
    forall j: nat | j < |v| ensures !IsTerminatorAt(s, j) {
      assert s[j] == v[j] && IsFoldedAt(v, j);
      if v[j] == CR {
        assert s[j + 2] == v[j + 2];
      }
    }
  }

  lemma ValueIsFound(v: bytes, tail: bytes, limit: nat)
    requires IsFolded(v) && |v| <= limit && tail != [] && !IsBlank(tail[0])
    ensures ScanValue(v + CRLF + tail, limit) == ScanFound(|v|)
  {
    FoldsDoNotEnd(v, tail);
    var s := v + CRLF + tail;
    var r := ScanValue(s, limit);
    if r.ScanFound? {
      assert !(r.length < |v|) && !(|v| < r.length);
    }
  }

  lemma HeaderStep(cfg: Config, d: Dec, buf: bytes, colon: nat)
    requires d.phase == AtHeader && Wf(d) && !StartsWith(buf, CRLF)
    requires IndexOf(buf, COLON, cfg.nameMax + 1) == Some(colon)
    ensures DecStep(cfg, d, buf) == StepField(cfg, d, buf[..colon], buf[colon + 1..])
  {
    hide StepField, DeclaredLength, IndexOf;
  }

  lemma ColonIsFound(cfg: Config, d: Dec, buf: bytes)
    requires d.phase == AtHeader && Wf(d) && !StartsWith(buf, CRLF) && DecStep(cfg, d, buf).More?
    ensures IndexOf(buf, COLON, cfg.nameMax + 1).Some?
  {
    hide StepField, DeclaredLength, IndexOf;
  }

  predicate IsAdded(d: Dec, h: Header, next: Dec) {
    next == d.(builder := d.builder.(headers := d.builder.headers + [h]))
  }

  lemma FieldStep(cfg: Config, d: Dec, name: bytes, rest: bytes)
    ensures var s, scan := StepField(cfg, d, name, rest), ScanValue(rest, cfg.valueMax);
      s.More? <==>
        && |d.builder.headers| < cfg.headerMaxCount && scan.ScanFound?
        && AddHeader(cfg, d.builder, name, rest[..scan.length]).Ok?
    ensures var s, scan := StepField(cfg, d, name, rest), ScanValue(rest, cfg.valueMax);
      s.More? ==>
        var r := AddHeader(cfg, d.builder, name, rest[..scan.length]);
        s == More(d.(builder := r.value), |name| + 1 + scan.length + 2, None)
  {
    hide AddHeader;
  }

  lemma FieldShape(buf: bytes, colon: nat, length: nat)
    requires colon + 1 + length + 2 < |buf| && buf[colon] == COLON && IsCrlfAt(buf[colon + 1..], length)
    ensures var f := Field(buf[..colon], buf[colon + 1..][..length]); var n := colon + 1 + length + 2;
      n == |FieldText(f)| && buf[..n] == FieldText(f) && buf[n] == buf[colon + 1..][length + 2]
  {
    var rest := buf[colon + 1..];
    assert rest[..length + 2] == rest[..length] + CRLF;
    assert buf[..colon + 1 + length + 2] == buf[..colon] + [COLON] + rest[..length + 2];
  }

  lemma FieldIsRead(cfg: Config, d: Dec, buf: bytes) returns (f: Field, h: Header)
    requires d.phase == AtHeader && Wf(d) && AreCoherent(d.builder.headers) && !StartsWith(buf, CRLF)
    requires DecStep(cfg, d, buf).More?
    ensures |d.builder.headers| < cfg.headerMaxCount && IsField(cfg, d.builder.headers, f, h)
    ensures var s := DecStep(cfg, d, buf);
      && s.used == |FieldText(f)| < |buf| && buf[..s.used] == FieldText(f) && !IsBlank(buf[s.used])
      && IsAdded(d, h, s.next)
  {
    hide DecStep, StepField, AddHeader, IsField, StartsWith, FieldText, Wf;
    ColonIsFound(cfg, d, buf);
    var colon := IndexOf(buf, COLON, cfg.nameMax + 1).value;
    var rest := buf[colon + 1..];
    HeaderStep(cfg, d, buf, colon);
    FieldStep(cfg, d, buf[..colon], rest);
    var length := ScanValue(rest, cfg.valueMax).length;
    f := Field(buf[..colon], rest[..length]);
    FieldIsAdded(cfg, d.builder, f);
    h :| IsField(cfg, d.builder.headers, f, h) &&
      AddHeader(cfg, d.builder, f.name, f.value) == Ok(d.builder.(headers := d.builder.headers + [h]));
    FieldShape(buf, colon, length);
  }

  lemma FieldStarts(cfg: Config, before: seq<Header>, f: Field, h: Header)
    requires IsField(cfg, before, f, h)
    ensures f.name != [] && IsTokenByte(f.name[0])
  {
    var n: nat :| IsTrimmedName(f.name, n) && IsToken(f.name[..n])
      && SpelledAs(cfg.standardNames, before, f.name[..n], h.name);
    assert IsTokenByte(f.name[..n][0]);
  }

  lemma FieldFront(cfg: Config, before: seq<Header>, f: Field, h: Header, tail: bytes)
    requires IsField(cfg, before, f, h)
    ensures var buf, rest := FieldText(f) + tail, f.value + CRLF + tail;
      && buf == f.name + [COLON] + rest && !StartsWith(buf, CRLF)
      && COLON !in f.name && |f.name| <= cfg.nameMax && |f.value| <= cfg.valueMax && IsFolded(f.value)
      && rest[..|f.value|] == f.value
  {
    FieldStarts(cfg, before, f, h);
    var buf := FieldText(f) + tail;
    assert buf[0] == f.name[0];
  }

  lemma FieldIsTaken(cfg: Config, d: Dec, f: Field, h: Header, tail: bytes)
    requires d.phase == AtHeader && Wf(d) && AreCoherent(d.builder.headers)
    requires |d.builder.headers| < cfg.headerMaxCount && IsField(cfg, d.builder.headers, f, h)
    requires tail != [] && !IsBlank(tail[0])
    ensures var s := DecStep(cfg, d, FieldText(f) + tail);
      s.More? && s.used == |FieldText(f)| && s.message.None? && IsAdded(d, h, s.next)
  {
    hide DecStep, StepField, AddHeader, IsField, StartsWith, Wf, IsFolded;
    var buf, rest := FieldText(f) + tail, f.value + CRLF + tail;
    FieldFront(cfg, d.builder.headers, f, h, tail);
    FieldIsAdded(cfg, d.builder, f);
    WordIndex(f.name, COLON, rest, cfg.nameMax);
    HeaderStep(cfg, d, buf, |f.name|);
    ValueIsFound(f.value, tail, cfg.valueMax);
    FieldStep(cfg, d, f.name, rest);
  }

  lemma HeadersEnd(cfg: Config, d: Dec, tail: bytes, n: nat)
    requires d.phase == AtHeader && Wf(d)
    ensures DecStep(cfg, d, CRLF + tail) == More(d.(phase := AtBody, contentLength := n), 2, None) <==>
      Declares(d.builder.headers, n) && n <= cfg.bodyMax
    ensures var s := DecStep(cfg, d, CRLF + tail);
      s.More? ==> s == More(d.(phase := AtBody, contentLength := s.next.contentLength), 2, None)
  {
    assert (CRLF + tail)[..2] == CRLF;
    DeclaresExact(d.builder.headers, n);
    hide Declares, DeclaredLength;
  }

  lemma BodyIsTaken(cfg: Config, d: Dec, body: bytes, tail: bytes)
    requires d.phase == AtBody && Wf(d) && d.contentLength == |body|
    ensures DecStep(cfg, d, body + tail) ==
      More(d.(phase := AtEnd, builder := d.builder.(body := Some(body))), |body|, None)
  {
    assert (body + tail)[..|body|] == body;
  }

  // ---------------------------------------------------------------- what has been read grows

  lemma AddField(cfg: Config, fields: seq<Field>, headers: seq<Header>, f: Field, h: Header)
    requires AreFields(cfg, fields, headers) && |headers| < cfg.headerMaxCount && IsField(cfg, headers, f, h)
    ensures AreFields(cfg, fields + [f], headers + [h])
    ensures FieldsText(fields + [f]) == FieldsText(fields) + FieldText(f)
  {
    hide IsField;
    assert (fields + [f])[..|fields|] == fields;
    forall i | 0 <= i < |fields| + 1 ensures IsField(cfg, (headers + [h])[..i], (fields + [f])[i], (headers + [h])[i]) {
      assert (headers + [h])[..i] == headers[..i];
      if i == |fields| {
        assert headers[..i] == headers;
      }
    }
  }

  /** A step of the start line takes one more piece. */
  lemma LineStep(cfg: Config, d: Dec, p: Pieces, buf: bytes) returns (q: Pieces)
    requires Wf(d) && SoFar(cfg, d, p) && d.phase !in {AtHeader, AtBody, AtEnd} && DecStep(cfg, d, buf).More?
    ensures var s := DecStep(cfg, d, buf);
      && SoFar(cfg, s.next, q) && TextUpTo(s.next.phase, q) == TextUpTo(d.phase, p) + buf[..s.used]
      && GoesOn(s.next, buf[s.used..])
  {
    hide DecStep, IsMethodWord, IsUriWord, IsVersion20, IsCode, IsReasonWord, Declares;
    match d.phase
    case AtMethod =>
      var word := VerbIsRead(cfg, d, buf);
      q := RequestPieces(word, [], [], [], []);
    case AtUri =>
      var word, uri := UriIsRead(cfg, d, buf);
      q := p.(uri := word);
    case AtVersion =>
      var word := VersionIsRead(cfg, d, buf);
      q := if p.RequestPieces? then RequestPieces(p.verb, p.uri, word, [], [])
        else ResponsePieces(word, [], [], [], []);
    case AtStatus =>
      var word, status := CodeIsRead(cfg, d, buf);
      q := p.(code := word);
    case AtReason =>
      var word := ReasonIsRead(cfg, d, buf);
      q := p.(reason := word, fields := []);
  }

  lemma LineStays(cfg: Config, p: Pieces, b: Builder, q: Pieces, c: Builder)
    requires LineRead(cfg, p, b) && q == p.(fields := q.fields) && c == b.(headers := c.headers, body := c.body)
    ensures LineRead(cfg, q, c) && LineText(q) == LineText(p)
  {
  }

  lemma HeadersEndStep(cfg: Config, d: Dec, p: Pieces, buf: bytes)
    requires Wf(d) && SoFar(cfg, d, p) && d.phase == AtHeader && StartsWith(buf, CRLF) && DecStep(cfg, d, buf).More?
    ensures var s := DecStep(cfg, d, buf);
      && SoFar(cfg, s.next, p) && TextUpTo(s.next.phase, p) == TextUpTo(d.phase, p) + buf[..s.used]
      && GoesOn(s.next, buf[s.used..])
  {
    hide DecStep, LineRead, Declares, AreFields;
    assert buf == CRLF + buf[2..];
    HeadersEnd(cfg, d, buf[2..], DecStep(cfg, d, buf).next.contentLength);
  }

  lemma FieldStepReads(cfg: Config, d: Dec, p: Pieces, buf: bytes) returns (q: Pieces)
    requires Wf(d) && SoFar(cfg, d, p) && d.phase == AtHeader && !StartsWith(buf, CRLF) && DecStep(cfg, d, buf).More?
    ensures var s := DecStep(cfg, d, buf);
      && SoFar(cfg, s.next, q) && TextUpTo(s.next.phase, q) == TextUpTo(d.phase, p) + buf[..s.used]
      && GoesOn(s.next, buf[s.used..])
  {
    hide DecStep, IsField, LineRead, Declares, AreFields, FieldText, FieldsText;
    FieldsAreCoherent(cfg, p.fields, d.builder.headers);
    var f, h := FieldIsRead(cfg, d, buf);
    q := p.(fields := p.fields + [f]);
    AddField(cfg, p.fields, d.builder.headers, f, h);
    var next := DecStep(cfg, d, buf).next;
    LineStays(cfg, p, d.builder, q, next.builder);
    assert LineText(p) + FieldsText(p.fields) + FieldText(f) == LineText(p) + (FieldsText(p.fields) + FieldText(f));
  }

  lemma BodyPhaseStep(cfg: Config, d: Dec, p: Pieces, buf: bytes) returns (q: Pieces)
    requires Wf(d) && SoFar(cfg, d, p) && d.phase == AtBody && DecStep(cfg, d, buf).More?
    ensures var s := DecStep(cfg, d, buf);
      && SoFar(cfg, s.next, q) && TextUpTo(s.next.phase, q) == TextUpTo(d.phase, p) + buf[..s.used]
      && GoesOn(s.next, buf[s.used..])
  {
    hide IsField, IsMethodWord, IsUriWord, IsVersion20, IsCode, IsReasonWord, Declares, AreFields;
    q := p.(body := buf[..d.contentLength]);
  }

  /** A step that does not end the message takes what comes next of it. */
  lemma StepReads(cfg: Config, d: Dec, p: Pieces, buf: bytes) returns (q: Pieces)
    requires Wf(d) && SoFar(cfg, d, p) && d.phase != AtEnd && DecStep(cfg, d, buf).More?
    ensures var s := DecStep(cfg, d, buf);
      && SoFar(cfg, s.next, q) && TextUpTo(s.next.phase, q) == TextUpTo(d.phase, p) + buf[..s.used]
      && GoesOn(s.next, buf[s.used..])
  {
    hide DecStep, SoFar, TextUpTo;
    match d.phase
    case AtHeader =>
      if StartsWith(buf, CRLF) {
        q := p;
        HeadersEndStep(cfg, d, p, buf);
      } else {
        q := FieldStepReads(cfg, d, p, buf);
      }
    case AtBody => q := BodyPhaseStep(cfg, d, p, buf);
    case _ => q := LineStep(cfg, d, p, buf);
  }

  lemma FreshReadsNothing(cfg: Config, kind: Kind, n: nat) returns (p: Pieces)
    ensures var d := Fresh(kind).(contentLength := n);
      SoFar(cfg, d, p) && TextUpTo(d.phase, p) == [] && Wf(d) && HasLength(d, n)
  {
    p := if kind == RequestKind then RequestPieces([], [], [], [], []) else ResponsePieces([], [], [], [], []);
  }

  /** Before the headers are over, the length of the last message is still there. */
  predicate HasLength(d: Dec, n: nat) {
    if d.phase == AtEnd then d.builder.body.Some? && d.contentLength == |d.builder.body.value|
    else d.phase == AtBody || d.contentLength == n
  }

  lemma LengthStays(cfg: Config, n: nat, d: Dec, buf: bytes)
    requires Wf(d) && HasLength(d, n) && DecStep(cfg, d, buf).More? && d.phase != AtEnd
    ensures HasLength(DecStep(cfg, d, buf).next, n)
  {
    hide ParseMethod, ParseVersion, ParseStatus, ParseReason, AddHeader, DeclaredLength;
  }

  /** How far a call got: what it read, and the step at which it stopped. */
  lemma {:induction false} CallReads(cfg: Config, n: nat, d: Dec, p: Pieces, buf: bytes)
    returns (e: Dec, q: Pieces, k: nat)
    requires Wf(d) && SoFar(cfg, d, p) && GoesOn(d, buf) && HasLength(d, n)
    ensures Wf(e) && SoFar(cfg, e, q) && k <= |buf| && TextUpTo(e.phase, q) == TextUpTo(d.phase, p) + buf[..k]
    ensures e.kind == d.kind && GoesOn(e, buf[k..]) && HasLength(e, n)
    ensures var r, s := Decode(cfg, d, buf), DecStep(cfg, e, buf[k..]);
      match r.outcome
      case Complete(m) => e.phase == AtEnd && m == Build(cfg, e) && r.used == k
      case Incomplete => s == Wait && r.after == e && r.used == k
      case Error(error) => s.Fail? && s.error == error && r.used == k + s.skipped
    decreases |buf|, Rank(d)
  {
    hide DecStep, SoFar, TextUpTo, Decode, Build, GoesOn, HasLength;
    assert !d.phase.Failed? by { NeverFailed(cfg, d, p); }
    DecodeUnfolds(cfg, d, buf);
    assert buf[0..] == buf && buf[..0] == [] && TextUpTo(d.phase, p) + [] == TextUpTo(d.phase, p);
    if d.phase == AtEnd {
      e, q, k := d, p, 0;
      EndStep(cfg, d, buf);
    } else {
      match DecStep(cfg, d, buf)
      case Wait => e, q, k := d, p, 0;
      case Fail(_, _) => e, q, k := d, p, 0;
      case More(next, used, _) =>
        var p' := StepReads(cfg, d, p, buf);
        LengthStays(cfg, n, d, buf);
        var more;
        e, q, more := CallReads(cfg, n, next, p', buf[used..]);
        k := used + more;
        CutTwice(buf, used, more);
        assert TextUpTo(d.phase, p) + buf[..used] + buf[used..][..more] == TextUpTo(d.phase, p) + buf[..k];
    }
  }

  lemma CutTwice(s: bytes, i: nat, n: nat)
    requires i + n <= |s|
    ensures s[i..][n..] == s[i + n..] && s[..i + n] == s[..i] + s[i..][..n]
  {
  }

  lemma NeverFailed(cfg: Config, d: Dec, p: Pieces)
    requires SoFar(cfg, d, p)
    ensures !d.phase.Failed?
  {
  }

  // ---------------------------------------------------------------- what is legible is read

  /** The decoder gets from the start of the message to this state, and goes on from there. */
  ghost predicate IsReached(cfg: Config, n: nat, d: Dec, p: Pieces, tail: bytes)
    requires Wf(d)
  {
    var text := TextUpTo(d.phase, p);
    Decode(cfg, Fresh(d.kind).(contentLength := n), text + tail) == Later(|text|, Decode(cfg, d, tail))
  }

  lemma ReachedNext(cfg: Config, n: nat, d: Dec, p: Pieces, next: Dec, q: Pieces, piece: bytes, tail: bytes)
    requires Wf(d) && Wf(next) && d.kind == next.kind && !d.phase.Failed?
    requires IsReached(cfg, n, d, p, piece + tail)
    requires DecStep(cfg, d, piece + tail) == More(next, |piece|, None)
    requires TextUpTo(next.phase, q) == TextUpTo(d.phase, p) + piece
    ensures IsReached(cfg, n, next, q, tail)
  {
    hide Decode, DecStep, TextUpTo;
    DecodeUnfolds(cfg, d, piece + tail);
    assert (piece + tail)[|piece|..] == tail;
    assert TextUpTo(d.phase, p) + (piece + tail) == TextUpTo(d.phase, p) + piece + tail;
  }

  function Order(phase: Phase): nat {
    match phase
    case AtMethod => 0
    case AtUri => 1
    case AtVersion => 2
    case AtStatus => 3
    case AtReason => 4
    case AtHeader => 5
    case AtBody => 6
    case AtEnd => 7
    case Failed(_) => 8
  }

  lemma StartIsReached(cfg: Config, n: nat, d: Dec, p: Pieces, tail: bytes)
    requires Wf(d) && SoFar(cfg, d, p) && HasLength(d, n) && d.phase == StartPhase(d.kind)
    ensures IsReached(cfg, n, d, p, tail)
  {
    hide Decode;
    assert [] + tail == tail;
  }

  lemma {:induction false} LineIsReached(cfg: Config, n: nat, d: Dec, p: Pieces, tail: bytes)
    requires Wf(d) && SoFar(cfg, d, p) && HasLength(d, n) && Order(d.phase) <= 4
    ensures IsReached(cfg, n, d, p, tail)
    decreases Order(d.phase)
  {
    hide IsReached, DecStep, IsMethodWord, IsUriWord, IsVersion20, IsCode, IsReasonWord;
    var b := d.builder;
    if d.phase == StartPhase(d.kind) {
      StartIsReached(cfg, n, d, p, tail);
    } else {
      match d.phase
      case AtUri =>
        var before := d.(phase := AtMethod, builder := EMPTY_BUILDER);
        LineIsReached(cfg, n, before, p, p.verb + [SP] + tail);
        VerbIsTaken(cfg, before, p.verb, tail);
        ReachedNext(cfg, n, before, p, d, p, p.verb + [SP], tail);
      case AtVersion =>
        var before := d.(phase := AtUri, builder := b.(uri := None));
        LineIsReached(cfg, n, before, p, p.uri + [SP] + tail);
        UriIsTaken(cfg, before, p.uri, b.uri.value, tail);
        ReachedNext(cfg, n, before, p, d, p, p.uri + [SP], tail);
      case AtStatus =>
        var before := d.(phase := AtVersion);
        LineIsReached(cfg, n, before, p, p.version + [SP] + tail);
        VersionIsTaken(cfg, before, p.version, tail);
        ReachedNext(cfg, n, before, p, d, p, p.version + [SP], tail);
      case AtReason =>
        var before := d.(phase := AtStatus, builder := b.(status := 200));
        LineIsReached(cfg, n, before, p, p.code + [SP] + tail);
        CodeIsTaken(cfg, before, p.code, b.status, tail);
        ReachedNext(cfg, n, before, p, d, p, p.code + [SP], tail);
      case _ =>
    }
  }

  lemma HeadersAreReached(cfg: Config, n: nat, d: Dec, p: Pieces, tail: bytes)
    requires Wf(d) && SoFar(cfg, d, p) && HasLength(d, n) && d.phase == AtHeader && p.fields == []
    ensures IsReached(cfg, n, d, p, tail)
  {
    hide IsReached, DecStep, IsMethodWord, IsUriWord, IsVersion20, IsCode, IsReasonWord;
    var b := d.builder;
    if p.RequestPieces? {
      var before := d.(phase := AtVersion);
      LineIsReached(cfg, n, before, p, p.version + CRLF + tail);
      VersionIsTaken(cfg, before, p.version, tail);
      ReachedNext(cfg, n, before, p, d, p, p.version + CRLF, tail);
    } else {
      var before := d.(phase := AtReason, builder := b.(reason := None));
      LineIsReached(cfg, n, before, p, p.reason + CRLF + tail);
      ReasonIsTaken(cfg, before, p.reason, tail);
      ReachedNext(cfg, n, before, p, d, p, p.reason + CRLF, tail);
    }
  }

  lemma FieldTextStarts(cfg: Config, before: seq<Header>, f: Field, h: Header, tail: bytes)
    requires IsField(cfg, before, f, h)
    ensures FieldText(f) + tail != [] && !IsBlank((FieldText(f) + tail)[0])
  {
    FieldStarts(cfg, before, f, h);
    hide IsField;
    assert (FieldText(f) + tail)[0] == f.name[0];
  }

  lemma DropField(cfg: Config, fields: seq<Field>, headers: seq<Header>)
    requires AreFields(cfg, fields, headers) && fields != []
    ensures |headers| == |fields| <= cfg.headerMaxCount
    ensures var n := |fields| - 1;
      && AreFields(cfg, fields[..n], headers[..n]) && IsField(cfg, headers[..n], fields[n], headers[n])
      && headers == headers[..n] + [headers[n]]
  {
    hide IsField;
    var n := |fields| - 1;
    forall i | 0 <= i < n ensures IsField(cfg, headers[..n][..i], fields[..n][i], headers[..n][i]) {
      assert headers[..n][..i] == headers[..i];
    }
  }

  /** The state before the last header line was read. */
  lemma LastField(cfg: Config, d: Dec, p: Pieces) returns (before: Dec, q: Pieces, f: Field, h: Header)
    requires Wf(d) && SoFar(cfg, d, p) && d.phase == AtHeader && p.fields != []
    ensures before.phase == AtHeader && before.kind == d.kind && before.contentLength == d.contentLength
    ensures Wf(before) && SoFar(cfg, before, q) && |q.fields| < |p.fields|
    ensures |before.builder.headers| < cfg.headerMaxCount && IsField(cfg, before.builder.headers, f, h)
    ensures IsAdded(before, h, d) && TextUpTo(AtHeader, p) == TextUpTo(AtHeader, q) + FieldText(f)
  {
    hide LineRead, AreFields, IsField, FieldText;
    var last := |p.fields| - 1;
    var headers := d.builder.headers;
    DropField(cfg, p.fields, headers);
    f, h := p.fields[last], headers[last];
    q := p.(fields := p.fields[..last]);
    before := d.(builder := d.builder.(headers := headers[..last]));
    LineStays(cfg, p, d.builder, q, before.builder);
  }

  lemma {:induction false} FieldsAreReached(cfg: Config, n: nat, d: Dec, p: Pieces, tail: bytes)
    requires Wf(d) && SoFar(cfg, d, p) && HasLength(d, n) && d.phase == AtHeader && GoesOn(d, tail)
    ensures IsReached(cfg, n, d, p, tail)
    decreases |p.fields|
  {
    hide IsReached, DecStep, IsField, AreFields, LineRead, FieldText, Wf;
    if p.fields == [] {
      HeadersAreReached(cfg, n, d, p, tail);
    } else {
      var before, q, f, h := LastField(cfg, d, p);
      FieldTextStarts(cfg, before.builder.headers, f, h, tail);
      FieldsAreReached(cfg, n, before, q, FieldText(f) + tail);
      FieldsAreCoherent(cfg, q.fields, before.builder.headers);
      hide SoFar, TextUpTo;
      FieldIsTaken(cfg, before, f, h, tail);
      ReachedNext(cfg, n, before, q, d, p, FieldText(f), tail);
    }
  }

  lemma BodyIsReached(cfg: Config, n: nat, d: Dec, p: Pieces, tail: bytes)
    requires Wf(d) && SoFar(cfg, d, p) && HasLength(d, n) && d.phase == AtBody
    ensures IsReached(cfg, n, d, p, tail)
  {
    hide IsReached, DecStep, LineRead, AreFields, Declares;
    var before := d.(phase := AtHeader, contentLength := n);
    FieldsAreReached(cfg, n, before, p, CRLF + tail);
    HeadersEnd(cfg, before, tail, d.contentLength);
    ReachedNext(cfg, n, before, p, d, p, CRLF, tail);
  }

  lemma EndIsReached(cfg: Config, n: nat, d: Dec, p: Pieces, tail: bytes)
    requires Wf(d) && SoFar(cfg, d, p) && HasLength(d, n) && d.phase == AtEnd
    ensures IsReached(cfg, n, d, p, tail)
  {
    hide IsReached, DecStep, LineRead, AreFields, Declares;
    var before := d.(phase := AtBody, builder := d.builder.(body := None));
    LineStays(cfg, p, d.builder, p, before.builder);
    BodyIsReached(cfg, n, before, p, p.body + tail);
    BodyIsTaken(cfg, before, p.body, tail);
    ReachedNext(cfg, n, before, p, d, p, p.body, tail);
  }

  lemma AllAreReached(cfg: Config, n: nat, d: Dec, p: Pieces, tail: bytes)
    requires Wf(d) && SoFar(cfg, d, p) && HasLength(d, n) && GoesOn(d, tail)
    ensures IsReached(cfg, n, d, p, tail)
  {
    hide IsReached, SoFar, GoesOn;
    NeverFailed(cfg, d, p);
    match d.phase
    case AtHeader => FieldsAreReached(cfg, n, d, p, tail);
    case AtBody => BodyIsReached(cfg, n, d, p, tail);
    case AtEnd => EndIsReached(cfg, n, d, p, tail);
    case _ => LineIsReached(cfg, n, d, p, tail);
  }

  // ---------------------------------------------------------------- one call, exactly

  predicate IsOf(p: Pieces, kind: Kind) {
    p.RequestPieces? <==> kind == RequestKind
  }

  /** The bytes begin with a legible message. */
  ghost predicate BeginsWith(cfg: Config, kind: Kind, buf: bytes, p: Pieces, m: Message) {
    IsOf(p, kind) && Legible(cfg, p, m) && |Text(p)| <= |buf| && buf[..|Text(p)|] == Text(p)
  }

  function AtTheEnd(kind: Kind, p: Pieces, m: Message): Dec {
    var b :=
      if p.RequestPieces? && m.Request? then
        Builder(Some(m.verb), Some(m.uri), 200, None, m.headers, Some(p.body))
      else if p.ResponsePieces? && m.Response? then
        Builder(None, None, m.status, Some(p.reason), m.headers, Some(p.body))
      else EMPTY_BUILDER;
    Dec(kind, AtEnd, b, |p.body|)
  }

  lemma LegibleIsTheEnd(cfg: Config, kind: Kind, p: Pieces, m: Message)
    requires IsOf(p, kind) && Legible(cfg, p, m)
    ensures var d := AtTheEnd(kind, p, m);
      Wf(d) && SoFar(cfg, d, p) && HasLength(d, 0) && Build(cfg, d) == m && d.phase == AtEnd
  {
    hide IsMethodWord, IsUriWord, IsVersion20, IsCode, IsReasonWord, AreFields, Declares;
  }

  lemma EndIsLegible(cfg: Config, d: Dec, p: Pieces)
    requires Wf(d) && SoFar(cfg, d, p) && d.phase == AtEnd
    ensures IsOf(p, d.kind) && Legible(cfg, p, Build(cfg, d))
  {
    hide IsMethodWord, IsUriWord, IsVersion20, IsCode, IsReasonWord, AreFields, Declares;
  }

  lemma FromTheStart(d: Dec, p: Pieces, buf: bytes, k: nat)
    requires k <= |buf| && TextUpTo(d.phase, p) == [] + buf[..k]
    ensures buf[..k] == TextUpTo(d.phase, p) && buf == TextUpTo(d.phase, p) + buf[k..]
  {
  }

  /** A call on the bytes of a new message completes with a message if and only if they begin with a legible
      text of it, and uses exactly that text. */
  lemma CompleteExact(cfg: Config, kind: Kind, n: nat, buf: bytes, m: Message, used: nat)
    ensures var r := Decode(cfg, Fresh(kind).(contentLength := n), buf);
      r.outcome == Complete(m) && r.used == used <==>
        exists p :: BeginsWith(cfg, kind, buf, p, m) && used == |Text(p)|
  {
    hide Decode, Legible, Text;
    var r := Decode(cfg, Fresh(kind).(contentLength := n), buf);
    if r.outcome == Complete(m) && r.used == used {
      var p := CompleteIsLegible(cfg, kind, n, buf);
    }
    forall p | BeginsWith(cfg, kind, buf, p, m) ensures r.outcome == Complete(m) && r.used == |Text(p)| {
      CompletesWith(cfg, kind, n, p, m, buf[|Text(p)|..]);
      assert buf == Text(p) + buf[|Text(p)|..];
    }
  }

  lemma CompleteIsLegible(cfg: Config, kind: Kind, n: nat, buf: bytes) returns (p: Pieces)
    requires Decode(cfg, Fresh(kind).(contentLength := n), buf).outcome.Complete?
    ensures var r := Decode(cfg, Fresh(kind).(contentLength := n), buf);
      BeginsWith(cfg, kind, buf, p, r.outcome.message) && r.used == |Text(p)|
  {
    hide Decode, DecStep, SoFar, Legible, Build;
    var start := FreshReadsNothing(cfg, kind, n);
    FreshGoesOn(kind, n, buf);
    var e, q, k := CallReads(cfg, n, Fresh(kind).(contentLength := n), start, buf);
    p := q;
    FromTheStart(e, p, buf, k);
    EndIsLegible(cfg, e, p);
  }

  lemma FreshGoesOn(kind: Kind, n: nat, buf: bytes)
    ensures GoesOn(Fresh(kind).(contentLength := n), buf)
  {
  }

  lemma CompletesWith(cfg: Config, kind: Kind, n: nat, p: Pieces, m: Message, tail: bytes)
    requires IsOf(p, kind) && Legible(cfg, p, m)
    ensures Decode(cfg, Fresh(kind).(contentLength := n), Text(p) + tail) ==
      Call(Complete(m), Fresh(kind).(contentLength := |p.body|), |Text(p)|)
  {
    hide Decode, DecStep, SoFar, Legible, Build, Text;
    var d := AtTheEnd(kind, p, m);
    LegibleIsTheEnd(cfg, kind, p, m);
    EndIsReached(cfg, n, d, p, tail);
    DecodeUnfolds(cfg, d, tail);
    EndStep(cfg, d, tail);
  }

  // ---------------------------------------------------------------- what is wrong

  /** The first `b` is at `n`, within the limit. */
  predicate WordEnds(rest: bytes, b: byte, limit: nat, n: nat) {
    n < |rest| && n <= limit && rest[n] == b && forall j :: 0 <= j < n ==> rest[j] != b
  }

  predicate WordIsTooLong(rest: bytes, b: byte, limit: nat) {
    |rest| > limit && forall j :: 0 <= j <= limit ==> rest[j] != b
  }

  predicate WordMayEnd(rest: bytes, b: byte, limit: nat) {
    |rest| <= limit && forall j :: 0 <= j < |rest| ==> rest[j] != b
  }

  predicate WrongMethod(word: bytes, e: DecodeError) {
    && e.InvalidMethod?
    && if word == [] then e.verb == EmptyMethod
       else if word[0] == 36 then e.verb == StartsWithDollarSign
       else !IsToken(word) && e.verb == InvalidMethodCharacter
  }

  predicate WrongVersion(word: bytes, e: DecodeError)
    requires |word| == 8
  {
    if Upper(word[..5]) != RTSP_SLASH || word[6] != 46 || word[5] < 48 || word[7] < 48 then
      e == BadVersion(InvalidVersion)
    else
      var major, minor := word[5] - 48, word[7] - 48;
      if major == 1 && minor == 0 then e == UnsupportedVersion
      else
        && !(major == 2 && minor == 0)
        && e == BadVersion(if major <= 9 && minor <= 9 then UnknownVersion(major, minor) else InvalidVersion)
  }

  predicate WrongCode(word: bytes, e: DecodeError)
    requires |word| == 3
  {
    var status := 100 * Weight(word[0]) + 10 * Weight(word[1]) + Weight(word[2]);
    && e.BadStatus? && !IsStatus(status)
    && e.status == if status in {303, 352} then StatusRemoved else StatusOutOfRange
  }

  predicate WrongReason(word: bytes, e: DecodeError) {
    && e.InvalidReason?
    && if !IsUtf8(word) then e.reason == InvalidReasonUtf8
       else if word == [] then e.reason == EmptyReason
       else (exists i :: 0 <= i < |word| && !IsTextByte(word[i])) && e.reason == InvalidReasonAscii
  }

  ghost predicate WrongHeader(name: bytes, value: bytes, e: DecodeError) {
    if name == [] then e == InvalidHeaderName(EmptyName)
    else if !IsToken(name) then e == InvalidHeaderName(InvalidNameCharacter)
    else if !IsUtf8(value) then e == InvalidHeaderValue(InvalidUtf8)
    else if HasStray(value) then e == InvalidHeaderValue(InvalidAscii)
    else !IsFolded(value) && e == InvalidHeaderValue(InvalidLineBreak)
  }

  predicate ValueEnds(rest: bytes, limit: nat, n: nat) {
    && n <= limit && n + 2 < |rest| && IsTerminatorAt(rest, n)
    && forall j: nat :: j < n ==> !IsTerminatorAt(rest, j)
  }

  predicate ValueIsTooLong(rest: bytes, limit: nat) {
    |rest| > limit && forall j: nat :: j <= limit ==> !IsTerminatorAt(rest, j)
  }

  predicate ValueMayEnd(rest: bytes, limit: nat) {
    && (forall j: nat :: j <= limit && IsTerminatorAt(rest, j) ==> j + 2 == |rest|)
    && !ValueIsTooLong(rest, limit)
  }

  ghost predicate WrongField(cfg: Config, before: nat, name: bytes, rest: bytes, e: DecodeError) {
    if before >= cfg.headerMaxCount then e == TooManyHeaders
    else if ValueIsTooLong(rest, cfg.valueMax) then e == HeaderValueTooLong
    else exists n: nat :: ValueEnds(rest, cfg.valueMax, n) && WrongHeader(TrimName(name), TrimValue(rest[..n]), e)
  }

  /** What comes next cannot be read in this state, and this is the error for it. */
  ghost predicate Offends(cfg: Config, d: Dec, rest: bytes, e: DecodeError) {
    match d.phase
    case AtMethod =>
      || (WordIsTooLong(rest, SP, cfg.methodMax) && e == MethodTooLong)
      || exists n: nat :: WordEnds(rest, SP, cfg.methodMax, n) && WrongMethod(rest[..n], e)
    case AtUri =>
      || (WordIsTooLong(rest, SP, cfg.uriMax) && e == UriTooLong)
      || exists n: nat :: WordEnds(rest, SP, cfg.uriMax, n) && cfg.parseUri(rest[..n]).None? && e == InvalidUri
    case AtVersion =>
      var width := 8 + |VersionEnd(d.kind)|;
      && |rest| >= width
      && if rest[8..width] != VersionEnd(d.kind) then e == BadVersion(InvalidVersion) else WrongVersion(rest[..8], e)
    case AtStatus =>
      && |rest| >= 4
      && if rest[3] != SP then e == BadStatus(InvalidStatus) else WrongCode(rest[..3], e)
    case AtReason =>
      || (|rest| >= cfg.reasonMax + 2 && (forall j: nat :: j <= cfg.reasonMax + 1 ==> !IsCrlfAt(rest, j))
          && e == ReasonPhraseTooLong)
      || exists n: nat :: n <= cfg.reasonMax + 1 && IsFirstCrlf(rest, n) && WrongReason(rest[..n], e)
    case AtHeader =>
      if StartsWith(rest, CRLF) then
        || (e == InvalidContentLength && forall n: nat :: !Declares(d.builder.headers, n))
        || (e == BodyTooLong && exists n: nat :: Declares(d.builder.headers, n) && n > cfg.bodyMax)
      else
        || (WordIsTooLong(rest, COLON, cfg.nameMax) && e == HeaderNameTooLong)
        || exists n: nat :: WordEnds(rest, COLON, cfg.nameMax, n)
             && WrongField(cfg, |d.builder.headers|, rest[..n], rest[n + 1..], e)
    case _ => false
  }

  predicate IsFirstCrlf(rest: bytes, n: nat) {
    IsCrlfAt(rest, n) && forall j: nat :: j < n ==> !IsCrlfAt(rest, j)
  }

  /** What comes next is not all there yet. */
  ghost predicate Starves(cfg: Config, d: Dec, rest: bytes) {
    match d.phase
    case AtMethod => WordMayEnd(rest, SP, cfg.methodMax)
    case AtUri => WordMayEnd(rest, SP, cfg.uriMax)
    case AtVersion => |rest| < 8 + |VersionEnd(d.kind)|
    case AtStatus => |rest| < 4
    case AtReason => |rest| < cfg.reasonMax + 2 && forall j: nat :: !IsCrlfAt(rest, j)
    case AtHeader =>
      && !StartsWith(rest, CRLF)
      && (|| WordMayEnd(rest, COLON, cfg.nameMax)
          || exists n: nat :: WordEnds(rest, COLON, cfg.nameMax, n)
               && |d.builder.headers| < cfg.headerMaxCount && ValueMayEnd(rest[n + 1..], cfg.valueMax))
    case AtBody => |rest| < d.contentLength
    case _ => false
  }

  /** The step fails with an error just for its cause, and waits just for want of bytes. */
  ghost predicate IsExact(cfg: Config, d: Dec, rest: bytes)
    requires Wf(d)
  {
    var s := DecStep(cfg, d, rest);
    && (forall e :: Offends(cfg, d, rest, e) <==> s.Fail? && s.error == e)
    && (Starves(cfg, d, rest) <==> s == Wait)
  }

  lemma WordCases(rest: bytes, b: byte, limit: nat)
    ensures var r := IndexOf(rest, b, limit + 1);
      && (r.None? ==> (WordIsTooLong(rest, b, limit) <==> |rest| > limit))
      && (r.None? ==> (WordMayEnd(rest, b, limit) <==> |rest| <= limit))
      && (r.Some? ==> !WordIsTooLong(rest, b, limit) && !WordMayEnd(rest, b, limit))
      && forall n: nat :: WordEnds(rest, b, limit, n) <==> r == Some(n)
  {
  }

  lemma MethodExact(cfg: Config, d: Dec, rest: bytes)
    requires Wf(d) && d.phase == AtMethod
    ensures IsExact(cfg, d, rest)
  {
    WordCases(rest, SP, cfg.methodMax);
    hide WordEnds, WordIsTooLong, WordMayEnd;
  }

  lemma UriExact(cfg: Config, d: Dec, rest: bytes)
    requires Wf(d) && d.phase == AtUri
    ensures IsExact(cfg, d, rest)
  {
    WordCases(rest, SP, cfg.uriMax);
    hide WordEnds, WordIsTooLong, WordMayEnd;
  }

  lemma VersionStepExact(cfg: Config, d: Dec, rest: bytes)
    requires Wf(d) && d.phase == AtVersion
    ensures IsExact(cfg, d, rest)
  {
  }

  lemma StatusExact(cfg: Config, d: Dec, rest: bytes)
    requires Wf(d) && d.phase == AtStatus
    ensures IsExact(cfg, d, rest)
  {
  }

  lemma ReasonStepExact(cfg: Config, d: Dec, rest: bytes)
    requires Wf(d) && d.phase == AtReason
    ensures IsExact(cfg, d, rest)
  {
    var r := CrlfFrom(rest, 0, cfg.reasonMax + 2);
    assert forall n: nat :: n <= cfg.reasonMax + 1 ==> (IsFirstCrlf(rest, n) <==> r == Some(n));
  }

  lemma BodyExact(cfg: Config, d: Dec, rest: bytes)
    requires Wf(d) && d.phase == AtBody
    ensures IsExact(cfg, d, rest)
  {
  }

  lemma WrongHeaderExact(cfg: Config, b: Builder, name: bytes, value: bytes, e: DecodeError)
    ensures AddHeader(cfg, b, name, value) == Err(e) <==> WrongHeader(TrimName(name), TrimValue(value), e)
  {
    hide HasStray, IsFolded, IsUtf8, TrimName, TrimValue, CheckText, Append, Canonical;
    var n, v := TrimName(name), TrimValue(value);
    NameExact(cfg.standardNames, n);
    TextAcceptedIffFolded(v);
    TextErrorExact(v);
    assert IsToken(n) && ParseHeaderValue(v).Err? ==>
      (AddHeader(cfg, b, name, value) == Err(e) <==> WrongHeader(n, v, e));
    assert IsToken(n) && ParseHeaderValue(v).Ok? ==> AddHeader(cfg, b, name, value).Ok?;
  }

  lemma ScanCases(rest: bytes, limit: nat)
    ensures var r := ScanValue(rest, limit);
      && (forall n: nat :: ValueEnds(rest, limit, n) <==> r == ScanFound(n))
      && (ValueIsTooLong(rest, limit) <==> r == ScanTooLong)
      && (ValueMayEnd(rest, limit) <==> r == ScanWait)
  {
    var r := ScanValue(rest, limit);
    if r.ScanFound? {
      assert ValueEnds(rest, limit, r.length);
    }
  }

  lemma FieldExact(cfg: Config, d: Dec, name: bytes, rest: bytes)
    ensures var s := StepField(cfg, d, name, rest);
      && (forall e :: WrongField(cfg, |d.builder.headers|, name, rest, e) <==> s.Fail? && s.error == e)
      && (s == Wait <==> |d.builder.headers| < cfg.headerMaxCount && ValueMayEnd(rest, cfg.valueMax))
  {
    hide AddHeader, WrongHeader, ValueEnds, ValueIsTooLong, ValueMayEnd, ScanValue;
    ScanCases(rest, cfg.valueMax);
    var scan := ScanValue(rest, cfg.valueMax);
    if scan.ScanFound? && scan.length <= |rest| {
      forall e ensures AddHeader(cfg, d.builder, name, rest[..scan.length]) == Err(e) <==>
        WrongHeader(TrimName(name), TrimValue(rest[..scan.length]), e)
      {
        WrongHeaderExact(cfg, d.builder, name, rest[..scan.length], e);
      }
    }
  }

  lemma HeaderEndExact(cfg: Config, d: Dec, rest: bytes)
    requires Wf(d) && d.phase == AtHeader && StartsWith(rest, CRLF)
    ensures IsExact(cfg, d, rest)
  {
    hide DeclaredLength, Declares;
    forall n: nat ensures Declares(d.builder.headers, n) <==> DeclaredLength(d.builder.headers) == Some(n) {
      DeclaresExact(d.builder.headers, n);
    }
    var length := DeclaredLength(d.builder.headers);
    assert length.Some? ==> Declares(d.builder.headers, length.value);
  }

  lemma HeaderExact(cfg: Config, d: Dec, rest: bytes)
    requires Wf(d) && d.phase == AtHeader && !StartsWith(rest, CRLF)
    ensures IsExact(cfg, d, rest)
  {
    hide StepField, DeclaredLength, Declares, WrongField, ValueMayEnd, WordEnds, WordIsTooLong, WordMayEnd;
    WordCases(rest, COLON, cfg.nameMax);
    var colon := IndexOf(rest, COLON, cfg.nameMax + 1);
    if colon.Some? {
      FieldExact(cfg, d, rest[..colon.value], rest[colon.value + 1..]);
    }
  }

  lemma StepIsExact(cfg: Config, d: Dec, rest: bytes)
    requires Wf(d) && !d.phase.Failed?
    ensures IsExact(cfg, d, rest)
  {
    hide IsExact;
    match d.phase
    case AtMethod => MethodExact(cfg, d, rest);
    case AtUri => UriExact(cfg, d, rest);
    case AtVersion => VersionStepExact(cfg, d, rest);
    case AtStatus => StatusExact(cfg, d, rest);
    case AtReason => ReasonStepExact(cfg, d, rest);
    case AtHeader =>
      if StartsWith(rest, CRLF) {
        HeaderEndExact(cfg, d, rest);
      } else {
        HeaderExact(cfg, d, rest);
      }
    case AtBody => BodyExact(cfg, d, rest);
    case AtEnd => EndExact(cfg, d, rest);
  }

  lemma EndExact(cfg: Config, d: Dec, rest: bytes)
    requires Wf(d) && d.phase == AtEnd
    ensures IsExact(cfg, d, rest)
  {
    EndStep(cfg, d, rest);
    hide DecStep;
  }

  /** The first `k` bytes are legible so far and bring the decoder to this state. */
  ghost predicate Brings(cfg: Config, kind: Kind, n: nat, buf: bytes, k: nat, d: Dec, p: Pieces) {
    && k <= |buf| && d.kind == kind && Wf(d) && SoFar(cfg, d, p) && HasLength(d, n)
    && buf[..k] == TextUpTo(d.phase, p) && GoesOn(d, buf[k..])
  }

  lemma BroughtHere(cfg: Config, kind: Kind, n: nat, buf: bytes, k: nat, d: Dec, p: Pieces)
    requires Brings(cfg, kind, n, buf, k, d, p)
    ensures Decode(cfg, Fresh(kind).(contentLength := n), buf) == Later(k, Decode(cfg, d, buf[k..]))
    ensures IsExact(cfg, d, buf[k..]) && !d.phase.Failed?
  {
    hide SoFar, Decode, DecStep, TextUpTo, GoesOn, HasLength, IsExact;
    AllAreReached(cfg, n, d, p, buf[k..]);
    assert buf == TextUpTo(d.phase, p) + buf[k..];
    NeverFailed(cfg, d, p);
    StepIsExact(cfg, d, buf[k..]);
  }

  lemma CallStops(cfg: Config, kind: Kind, n: nat, buf: bytes) returns (d: Dec, p: Pieces, k: nat)
    ensures Brings(cfg, kind, n, buf, k, d, p)
    ensures var r, s := Decode(cfg, Fresh(kind).(contentLength := n), buf), DecStep(cfg, d, buf[k..]);
      match r.outcome
      case Complete(_) => true
      case Incomplete => s == Wait && r.after == d && r.used == k
      case Error(error) => s.Fail? && s.error == error
  {
    hide SoFar, Decode, DecStep, TextUpTo, GoesOn, HasLength;
    var start := FreshReadsNothing(cfg, kind, n);
    FreshGoesOn(kind, n, buf);
    d, p, k := CallReads(cfg, n, Fresh(kind).(contentLength := n), start, buf);
    FromTheStart(d, p, buf, k);
  }

  /** A call on the bytes of a new message reports an error if and only if, behind a legible beginning, they
      go on with what cannot be read, and the error is the one for that. */
  lemma ErrorExact(cfg: Config, kind: Kind, n: nat, buf: bytes, error: DecodeError)
    ensures Decode(cfg, Fresh(kind).(contentLength := n), buf).outcome == Error(error) <==>
      exists k: nat, d, p :: Brings(cfg, kind, n, buf, k, d, p) && Offends(cfg, d, buf[k..], error)
  {
    hide Decode, DecStep, Offends, Starves;
    var r := Decode(cfg, Fresh(kind).(contentLength := n), buf);
    if r.outcome == Error(error) {
      var d, p, k := CallStops(cfg, kind, n, buf);
      BroughtHere(cfg, kind, n, buf, k, d, p);
      hide Brings;
    }
    forall k: nat, d, p | Brings(cfg, kind, n, buf, k, d, p) && Offends(cfg, d, buf[k..], error)
      ensures r.outcome == Error(error)
    {
      BroughtHere(cfg, kind, n, buf, k, d, p);
      hide SoFar, TextUpTo, GoesOn, HasLength;
      DecodeUnfolds(cfg, d, buf[k..]);
    }
  }

  /** It asks for more if and only if they stop before what comes next can be told. */
  lemma IncompleteExact(cfg: Config, kind: Kind, n: nat, buf: bytes, k: nat, d: Dec)
    ensures var r := Decode(cfg, Fresh(kind).(contentLength := n), buf);
      r.outcome == Incomplete && r.used == k && r.after == d <==>
        exists p :: Brings(cfg, kind, n, buf, k, d, p) && Starves(cfg, d, buf[k..])
  {
    hide Decode, DecStep, Offends, Starves;
    var r := Decode(cfg, Fresh(kind).(contentLength := n), buf);
    if r.outcome == Incomplete && r.used == k && r.after == d {
      var d', p, k' := CallStops(cfg, kind, n, buf);
      BroughtHere(cfg, kind, n, buf, k, d, p);
      hide Brings;
    }
    forall p | Brings(cfg, kind, n, buf, k, d, p) && Starves(cfg, d, buf[k..])
      ensures r.outcome == Incomplete && r.used == k && r.after == d
    {
      BroughtHere(cfg, kind, n, buf, k, d, p);
      hide SoFar, TextUpTo, GoesOn, HasLength;
      DecodeUnfolds(cfg, d, buf[k..]);
    }
  }
}
