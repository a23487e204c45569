/** The request and response decoders as objects that are fed pieces of the stream. */
module Decoders {
  import opened Bytes
  import opened Syntax
  import opened Decoding

  datatype StepResult = Advanced | Rejected(error: DecodeError) | Starved

  method FindByte(buffer: bytes, b: byte, limit: nat) returns (r: Option<nat>)
    ensures r == IndexOf(buffer, b, limit)
  {
    var i: nat := 0;
    while i < |buffer| && i < limit
      invariant i <= |buffer|
      invariant forall j :: 0 <= j < i ==> buffer[j] != b
    {
      if buffer[i] == b {
        return Some(i);
      }
      i := i + 1;
    }
    return None;
  }

  method FindCrlf(buffer: bytes, limit: nat) returns (r: Option<nat>)
    ensures r == CrlfFrom(buffer, 0, limit)
  {
    var i: nat := 0;
    while i + 1 < |buffer| && i < limit
      invariant forall j: nat :: j < i ==> !IsCrlfAt(buffer, j)
    {
      if buffer[i] == CR && buffer[i + 1] == LF {
        assert IsCrlfAt(buffer, i);
        return Some(i);
      }
      i := i + 1;
    }
    return None;
  }

  method TrimHeaderName(name: bytes) returns (r: bytes)
    ensures r == TrimName(name)
  {
    var index: nat := |name|;
    while index > 0 && IsBlank(name[index - 1])
      invariant index <= |name|
      invariant TrimName(name) == TrimName(name[..index])
    {
      assert name[..index][..index - 1] == name[..index - 1];
      index := index - 1;
    }
    return name[..index];
  }

  method TrimHeaderValue(value: bytes) returns (r: bytes)
    ensures r == TrimValue(value)
    ensures |r| <= |value| && r == value[|value| - |r|..] && IsTrimmedValue(value, |value| - |r|)
  {
    TrimValueRemoves(value);
    var hasInitialLinebreak := StartsWith(value, CRLF);
    var index := if hasInitialLinebreak then 2 else 0;
    ghost var first := index;
    while index < |value| && IsBlank(value[index])
      invariant index <= |value|
      invariant SkipBlanks(value, index) == SkipBlanks(value, first)
    {
      index := index + 1;
    }
    if hasInitialLinebreak && index == 2 {
      return value;
    }
    return value[index..];
  }

  class Decoder {
    const kind: Kind
    const config: Config
    var phase: Phase
    var builder: Builder
    var contentLength: nat

    ghost function State(): Dec
      reads this
    {
      Dec(kind, phase, builder, contentLength)
    }

    ghost predicate Valid()
      reads this
    {
      Wf(State())
    }

    constructor (kind: Kind, config: Config)
      ensures this.kind == kind && this.config == config
      ensures Valid() && State() == Fresh(kind)
    {
      this.kind := kind;
      this.config := config;
      phase := StartPhase(kind);
      builder := EMPTY_BUILDER;
      contentLength := 0;
    }

    method Reset()
      modifies this
      ensures Valid() && State() == Fresh(kind)
    {
      builder := EMPTY_BUILDER;
      contentLength := 0;
      phase := StartPhase(kind);
    }

    /** What a step method leaves behind when the pure step is `step`. */
    ghost predicate Took(step: Step, before: Dec, progress: StepResult, used: nat)
      reads this
    {
      match step
      case Wait => progress == Starved && used == 0 && State() == before
      case More(next, n, _) => progress == Advanced && used == n && State() == next
      case Fail(error, n) =>
        progress == Rejected(error) && used == n && State().(phase := Failed(error)) == before.(phase := Failed(error))
    }

    method DecodeMethod(buffer: bytes) returns (progress: StepResult, used: nat)
      requires Valid() && phase == AtMethod
      modifies this
      ensures Took(DecStep(config, old(State()), buffer), old(State()), progress, used)
    {
      used := 0;
      var maxLength := config.methodMax + 1;
      var position := FindByte(buffer, SP, maxLength);
      match position
      case Some(index) =>
        match ParseMethod(buffer[..index]) {
          case Ok(m) =>
            builder := builder.(verb := Some(m));
            phase := AtUri;
            progress, used := Advanced, index + 1;
          case Err(error) => progress := Rejected(InvalidMethod(error));
        }
      case None => progress := if |buffer| >= maxLength then Rejected(MethodTooLong) else Starved;
    }

    method DecodeUri(buffer: bytes) returns (progress: StepResult, used: nat)
      requires Valid() && phase == AtUri
      modifies this
      ensures Took(DecStep(config, old(State()), buffer), old(State()), progress, used)
    {
      used := 0;
      var maxLength := config.uriMax + 1;
      var position := FindByte(buffer, SP, maxLength);
      match position
      case Some(index) =>
        match config.parseUri(buffer[..index]) {
          case Some(uri) =>
            builder := builder.(uri := Some(uri));
            phase := AtVersion;
            progress, used := Advanced, index + 1;
          case None => progress := Rejected(InvalidUri);
        }
      case None => progress := if |buffer| >= maxLength then Rejected(UriTooLong) else Starved;
    }

    method DecodeVersion(buffer: bytes) returns (progress: StepResult, used: nat)
      requires Valid() && phase == AtVersion
      modifies this
      ensures Took(DecStep(config, old(State()), buffer), old(State()), progress, used)
    {
      used := 0;
      var width := if kind == RequestKind then 10 else 9;
      if |buffer| < width {
        return Starved, 0;
      }
      if buffer[8..width] != (if kind == RequestKind then CRLF else [SP]) {
        return Rejected(BadVersion(InvalidVersion)), 0;
      }
      match ParseVersion(buffer[..8])
      case Ok(Rtsp20) =>
        phase := if kind == RequestKind then AtHeader else AtStatus;
        progress, used := Advanced, width;
      case Ok(Rtsp10) => progress := Rejected(UnsupportedVersion);
      case Err(error) => progress := Rejected(BadVersion(error));
    }

    method DecodeStatusCode(buffer: bytes) returns (progress: StepResult, used: nat)
      requires Valid() && phase == AtStatus
      modifies this
      ensures Took(DecStep(config, old(State()), buffer), old(State()), progress, used)
    {
      used := 0;
      if |buffer| < 4 {
        return Starved, 0;
      }
      if buffer[3] != SP {
        return Rejected(BadStatus(InvalidStatus)), 0;
      }
      match ParseStatus(buffer[..3])
      case Ok(code) =>
        builder := builder.(status := code);
        phase := AtReason;
        progress, used := Advanced, 4;
      case Err(error) => progress := Rejected(BadStatus(error));
    }

    method DecodeReasonPhrase(buffer: bytes) returns (progress: StepResult, used: nat)
      requires Valid() && phase == AtReason
      modifies this
      ensures Took(DecStep(config, old(State()), buffer), old(State()), progress, used)
    {
      used := 0;
      var maxLength := config.reasonMax + 2;
      var position := FindCrlf(buffer, maxLength);
      match position
      case Some(index) =>
        match ParseReason(buffer[..index]) {
          case Ok(phrase) =>
            builder := builder.(reason := Some(phrase));
            phase := AtHeader;
            progress, used := Advanced, index + 2;
          case Err(error) => progress := Rejected(InvalidReason(error));
        }
      case None => progress := if |buffer| >= maxLength then Rejected(ReasonPhraseTooLong) else Starved;
    }

    method DecodeHeaderValue(buffer: bytes) returns (r: Scan)
      ensures r == ScanValue(buffer, config.valueMax)
    {
      var maxLength := config.valueMax + 1;
      var index: nat := 0;
      while index < maxLength && index + 1 < |buffer|
        invariant index <= maxLength
        invariant forall j: nat :: j < index ==> !IsTerminatorAt(buffer, j)
      {
        if buffer[index] == CR && buffer[index + 1] == LF {
          if index + 2 < |buffer| {
            if !IsBlank(buffer[index + 2]) {
              assert IsTerminatorAt(buffer, index);
              return ScanFound(index);
            }
          } else {
            assert IsTerminatorAt(buffer, index);
            return ScanWait;
          }
        }
        index := index + 1;
      }
      return if |buffer| >= maxLength then ScanTooLong else ScanWait;
    }

    method DecodeHeader(buffer: bytes) returns (progress: StepResult, used: nat)
      requires Valid() && phase == AtHeader
      modifies this
      ensures Took(DecStep(config, old(State()), buffer), old(State()), progress, used)
    {
      hide DeclaredLength, Append, ParseHeaderName, ParseHeaderValue, TrimName, TrimValue, ScanValue;
      hide IsTrimmedName, IsTrimmedValue;
      used := 0;
      if StartsWith(buffer, CRLF) {
        used := 2;
        phase := AtBody;
        match DeclaredLength(builder.headers) {
          case Some(length) =>
            if length > config.bodyMax {
              return Rejected(BodyTooLong), 2;
            }
            contentLength := length;
            progress := Advanced;
          case None => progress := Rejected(InvalidContentLength);
        }
        return;
      }

      var maxLength := config.nameMax + 1;
      var position := FindByte(buffer, COLON, maxLength);
      if position.None? {
        return (if |buffer| >= maxLength then Rejected(HeaderNameTooLong) else Starved), 0;
      }
      var headerName := buffer[..position.value];
      if |builder.headers| >= config.headerMaxCount {
        return Rejected(TooManyHeaders), 0;
      }
      var rest := buffer[|headerName| + 1..];
      var scan := DecodeHeaderValue(rest);
      match scan
      case ScanWait => progress := Starved;
      case ScanTooLong => progress := Rejected(HeaderValueTooLong);
      case ScanFound(length) =>
        var name := TrimHeaderName(headerName);
        var value := TrimHeaderValue(rest[..length]);
        match ParseHeaderName(config.standardNames, name) {
          case Err(error) => progress := Rejected(InvalidHeaderName(error));
          case Ok(n) =>
            match ParseHeaderValue(value) {
              case Err(error) => progress := Rejected(InvalidHeaderValue(error));
              case Ok(v) =>
                builder := builder.(headers := Append(builder.headers, n, v));
                progress, used := Advanced, |headerName| + 1 + length + 2;
            }
        }
    }

    method DecodeBody(buffer: bytes) returns (progress: StepResult, used: nat)
      requires Valid() && phase == AtBody
      modifies this
      ensures Took(DecStep(config, old(State()), buffer), old(State()), progress, used)
    {
      if contentLength > |buffer| {
        return Starved, 0;
      }
      phase := AtEnd;
      builder := builder.(body := Some(buffer[..contentLength]));
      return Advanced, contentLength;
    }

    /** Decodes as far as the bytes allow, at most to the end of one message. */
    method Decode(buffer: bytes) returns (outcome: Outcome, used: nat)
      requires Valid()
      modifies this
      ensures Valid()
      ensures Call(outcome, State(), used) == Decoding.Decode(config, old(State()), buffer)
    {
      hide DecStep, Decoding.Decode, Build, HasStartLine;
      used := 0;
      ghost var whole := Decoding.Decode(config, State(), buffer);
      assert buffer[0..] == buffer;
      while true
        invariant Valid() && used <= |buffer| && (phase.Failed? ==> used == 0)
        invariant var r := Decoding.Decode(config, State(), buffer[used..]);
          r.(used := used + r.used) == whole
        decreases |buffer| - used, Rank(State())
      {
        var rest := buffer[used..];
        if !phase.Failed? {
          DecodeUnfolds(config, State(), rest);
        }
        var progress, n;
        match phase {
          case AtMethod => progress, n := DecodeMethod(rest);
          case AtUri => progress, n := DecodeUri(rest);
          case AtVersion => progress, n := DecodeVersion(rest);
          case AtStatus => progress, n := DecodeStatusCode(rest);
          case AtReason => progress, n := DecodeReasonPhrase(rest);
          case AtHeader => progress, n := DecodeHeader(rest);
          case AtBody => progress, n := DecodeBody(rest);
          case AtEnd =>
            EndStep(config, State(), rest);
            var message := Build(config, Dec(kind, phase, builder, contentLength));
            builder := EMPTY_BUILDER;
            phase := StartPhase(kind);
            return Complete(message), used;
          case Failed(error) =>
            FailedStays(config, State(), rest);
            return Error(error), 0;
        }
        match progress
        case Advanced =>
          assert buffer[used..][n..] == buffer[used + n..];
          used := used + n;
        case Rejected(error) =>
          phase := Failed(error);
          return Error(error), used + n;
        case Starved => return Incomplete, used;
      }
    }
  }
}
