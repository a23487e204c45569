/** Octet strings and the byte scanners of the wire decoder. */
module Bytes {

  datatype Option<+T> = None | Some(value: T)

  datatype Result<+T, +E> = Ok(value: T) | Err(error: E)

  type byte = b: int | 0 <= b < 256
  type bytes = seq<byte>

  const HT: byte := 9
  const LF: byte := 10
  const CR: byte := 13
  const SP: byte := 32
  const COLON: byte := 58

  const CRLF: bytes := [13, 10]
  const COLON_SP: bytes := [58, 32]
  const RTSP_SLASH: bytes := [82, 84, 83, 80, 47]                    // "RTSP/"
  const RTSP_2_0: bytes := [82, 84, 83, 80, 47, 50, 46, 48]          // "RTSP/2.0"
  const CONTENT_LENGTH: bytes :=
    [67, 111, 110, 116, 101, 110, 116, 45, 76, 101, 110, 103, 116, 104]  // "Content-Length"

  predicate IsBlank(b: byte) {
    b == SP || b == HT
  }

  predicate StartsWith(s: bytes, p: bytes) {
    |p| <= |s| && s[..|p|] == p
  }

  function LowerByte(b: byte): byte {
    if 65 <= b <= 90 then b + 32 else b
  }

  function UpperByte(b: byte): byte {
    if 97 <= b <= 122 then b - 32 else b
  }

  function Lower(s: bytes): (r: bytes) {
    seq(|s|, i requires 0 <= i < |s| => LowerByte(s[i]))
  }

  function Upper(s: bytes): (r: bytes) {
    seq(|s|, i requires 0 <= i < |s| => UpperByte(s[i]))
  }

  /** The offset of the first `b` among the first `limit` bytes. */
  function IndexOf(s: bytes, b: byte, limit: nat): (r: Option<nat>)
    ensures r.Some? ==> r.value < |s| && r.value < limit && s[r.value] == b
    ensures r.Some? ==> forall j :: 0 <= j < r.value ==> s[j] != b
    ensures r.None? ==> forall j :: 0 <= j < |s| && j < limit ==> s[j] != b
  {
    IndexFrom(s, b, 0, limit)
  }

  function IndexFrom(s: bytes, b: byte, i: nat, limit: nat): (r: Option<nat>)
    requires i <= |s|
    ensures r.Some? ==> i <= r.value < |s| && r.value < limit && s[r.value] == b
    ensures r.Some? ==> forall j :: i <= j < r.value ==> s[j] != b
    ensures r.None? ==> forall j :: i <= j < |s| && j < limit ==> s[j] != b
    decreases |s| - i
  {
    if i == |s| || limit <= i then None
    else if s[i] == b then Some(i)
    else IndexFrom(s, b, i + 1, limit)
  }

  predicate IsCrlfAt(s: bytes, i: nat) {
    i + 1 < |s| && s[i] == CR && s[i + 1] == LF
  }

  /** The offset of the first CRLF among the first `limit` two-byte windows. */
  function CrlfFrom(s: bytes, i: nat, limit: nat): (r: Option<nat>)
    ensures r.Some? ==> i <= r.value < limit && IsCrlfAt(s, r.value)
    ensures r.Some? ==> forall j: nat :: i <= j < r.value ==> !IsCrlfAt(s, j)
    ensures r.None? ==> forall j: nat :: i <= j < limit ==> !IsCrlfAt(s, j)
    decreases limit - i
  {
    if limit <= i || |s| <= i then None
    else if IsCrlfAt(s, i) then Some(i)
    else CrlfFrom(s, i + 1, limit)
  }

  /** A line break at `i` that does not continue the line: it is followed by a byte other than SP
      and HT, or by nothing. */
  predicate IsTerminatorAt(s: bytes, i: nat) {
    IsCrlfAt(s, i) && (i + 2 < |s| ==> !IsBlank(s[i + 2]))
  }

  function TerminatorFrom(s: bytes, i: nat, limit: nat): (r: Option<nat>)
    ensures r.Some? ==> i <= r.value < limit && IsTerminatorAt(s, r.value)
    ensures r.Some? ==> forall j: nat :: i <= j < r.value ==> !IsTerminatorAt(s, j)
    ensures r.None? ==> forall j: nat :: i <= j < limit ==> !IsTerminatorAt(s, j)
    decreases limit - i
  {
    if limit <= i || |s| <= i then None
    else if IsTerminatorAt(s, i) then Some(i)
    else TerminatorFrom(s, i + 1, limit)
  }
}
