/** The value syntaxes that the decoder applies to the pieces it cuts out of the stream: tokens,
    methods, header names, header values, versions, status codes, reason phrases and lengths. */
module Syntax {
  import opened Bytes

  // ---------------------------------------------------------------- tokens

  /** The non-zero entries of the token character table. */
  predicate IsTokenByte(b: byte) {
    || b == 33 || 35 <= b <= 39 || b == 42 || b == 43 || b == 45 || b == 46
    || 48 <= b <= 57 || 65 <= b <= 90 || 94 <= b <= 95 || 97 <= b <= 122 || b == 124 || b == 126
  }

  /** The characters that separate tokens; the grave accent is one of them here. */
  const SEPARATORS: bytes := [34, 40, 41, 44, 47, 58, 59, 60, 61, 62, 63, 64, 91, 92, 93, 96, 123, 125]

  lemma TokenBytesExact(b: byte)
    ensures IsTokenByte(b) <==> 32 < b < 127 && b !in SEPARATORS
  {
    assert b in SEPARATORS <==>
      b in {34, 40, 41, 44, 47, 58, 59, 60, 61, 62, 63, 64, 91, 92, 93, 96, 123, 125};
  }

  predicate IsToken(s: bytes) {
    s != [] && forall i :: 0 <= i < |s| ==> IsTokenByte(s[i])
  }

  datatype MethodError = EmptyMethod | InvalidMethodCharacter | StartsWithDollarSign

  /** A method is kept as its upper-case spelling; a standard method and an extension method never
      have the same one. */
  function ParseMethod(s: bytes): (r: Result<bytes, MethodError>)
  {
    if s == [] then Err(EmptyMethod)
    else if s[0] == 36 then Err(StartsWithDollarSign)
    else if !IsToken(s) then Err(InvalidMethodCharacter)
    else Ok(Upper(s))
  }

  datatype HeaderNameError = EmptyName | InvalidNameCharacter

  predicate SameName(a: bytes, b: bytes) {
    Lower(a) == Lower(b)
  }

  predicate IsLetter(b: byte) {
    65 <= b <= 90 || 97 <= b <= 122
  }

  /** Names are the same but for the case of letters. */
  lemma SameNameExact(a: bytes, b: bytes)
    ensures SameName(a, b) <==>
      && |a| == |b|
      && forall i :: 0 <= i < |a| ==>
           a[i] == b[i] || (IsLetter(a[i]) && IsLetter(b[i]) && (a[i] as int - b[i] as int) in {-32, 32})
  {
    assert SameName(a, b) ==> |a| == |Lower(a)| == |b|;
    if |a| == |b| {
      assert forall i :: 0 <= i < |a| ==> Lower(a)[i] == LowerByte(a[i]) && Lower(b)[i] == LowerByte(b[i]);
    }
  }

  /** The spelling of a header name: a standard name gets the standard one. */
  function Canonical(standard: seq<bytes>, name: bytes): (r: bytes)
    ensures SameName(r, name)
  {
    if standard == [] then name
    else if SameName(standard[0], name) then standard[0]
    else Canonical(standard[1..], name)
  }

  function ParseHeaderName(standard: seq<bytes>, s: bytes): (r: Result<bytes, HeaderNameError>)
  {
    if s == [] then Err(EmptyName)
    else if !IsToken(s) then Err(InvalidNameCharacter)
    else Ok(Canonical(standard, s))
  }

  // ---------------------------------------------------------------- UTF-8 (RFC 3629, section 4)

  predicate IsUtf8Tail(s: bytes, i: nat) {
    i < |s| && 0x80 <= s[i] <= 0xBF
  }

  /** The length of the UTF-8 sequence at the front of `s`, or zero. */
  function Utf8Width(s: bytes): (n: nat)
    requires s != []
    ensures n <= |s|
    ensures s[0] < 0x80 ==> n == 1
  {
    if s[0] < 0x80 then 1
    else if 0xC2 <= s[0] <= 0xDF && IsUtf8Tail(s, 1) then 2
    else if 0xE0 <= s[0] <= 0xEF && IsUtf8Tail(s, 1) && IsUtf8Tail(s, 2)
         && (s[0] == 0xE0 ==> 0xA0 <= s[1]) && (s[0] == 0xED ==> s[1] <= 0x9F) then 3
    else if 0xF0 <= s[0] <= 0xF4 && IsUtf8Tail(s, 1) && IsUtf8Tail(s, 2) && IsUtf8Tail(s, 3)
         && (s[0] == 0xF0 ==> 0x90 <= s[1]) && (s[0] == 0xF4 ==> s[1] <= 0x8F) then 4
    else 0
  }

  predicate IsUtf8(s: bytes) {
    s == [] || (Utf8Width(s) != 0 && IsUtf8(s[Utf8Width(s)..]))
  }

  lemma {:induction false} AsciiIsUtf8(s: bytes)
    requires forall i :: 0 <= i < |s| ==> s[i] < 0x80
    ensures IsUtf8(s)
  {
    if s != [] {
      AsciiIsUtf8(s[1..]);
    }
  }

  // ---------------------------------------------------------------- header values

  datatype HeaderValueError = InvalidAscii | InvalidLineBreak | InvalidUtf8

  datatype Expect = Any | LineFeed | SpaceOrTab

  /** One turn of the line-break state machine. A byte above 127 is part of a character that is not
      ASCII, so it behaves like that character. */
  function ExpectNext(e: Expect, b: byte): (r: Result<Expect, HeaderValueError>)
  {
    match e
    case Any =>
      if b == CR then Ok(LineFeed)
      else if b < 128 && (b < 32 || 126 < b) && b != HT then Err(InvalidAscii)
      else Ok(Any)
    case LineFeed => if b == LF then Ok(SpaceOrTab) else Err(InvalidLineBreak)
    case SpaceOrTab => if IsBlank(b) then Ok(Any) else Err(InvalidLineBreak)
  }

  function CheckText(s: bytes, e: Expect): (r: Result<bytes, HeaderValueError>)
  {
    if s == [] then
      if e == Any then Ok([]) else Err(InvalidLineBreak)
    else
      match ExpectNext(e, s[0])
      case Ok(e') => CheckText(s[1..], e')
      case Err(error) => Err(error)
  }

  function ParseHeaderValue(s: bytes): (r: Result<bytes, HeaderValueError>)
  {
    if !IsUtf8(s) then Err(InvalidUtf8)
    else match CheckText(s, Any)
         case Ok(_) => Ok(s)
         case Err(error) => Err(error)
  }

  /** The loop of the conversion. */
  method CheckHeaderText(s: bytes) returns (r: Result<bytes, HeaderValueError>)
    ensures r == match CheckText(s, Any) case Ok(_) => Ok(s) case Err(error) => Err(error)
  {
    var state := Any;
    for i := 0 to |s|
      invariant CheckText(s[i..], state) == CheckText(s, Any)
    {
      assert s[i..][0] == s[i] && s[i..][1..] == s[i + 1..];
      match ExpectNext(state, s[i])
      case Ok(next) => state := next;
      case Err(error) => return Err(error);
    }
    if state != Any {
      return Err(InvalidLineBreak);
    }
    return Ok(s);
  }

  predicate IsTextByte(b: byte) {
    b == HT || 32 <= b <= 126 || 128 <= b
  }

  predicate IsFoldedAt(s: bytes, i: nat)
    requires i < |s|
  {
    || IsTextByte(s[i])
    || (s[i] == CR && i + 2 < |s| && s[i + 1] == LF && IsBlank(s[i + 2]))
    || (s[i] == LF && 0 < i && s[i - 1] == CR)
  }

  /** Printable text in which every line break is a fold: CRLF followed by SP or HT. */
  predicate IsFolded(s: bytes) {
    forall i: nat :: i < |s| ==> IsFoldedAt(s, i)
  }

  lemma FoldedTail(s: bytes, n: nat)
    requires (n == 1 && |s| >= 1 && IsTextByte(s[0]))
          || (n == 3 && |s| >= 3 && s[0] == CR && s[1] == LF && IsBlank(s[2]))
    ensures IsFolded(s) <==> IsFolded(s[n..])
  {
    var t := s[n..];
    assert forall i: nat :: n <= i < |s| ==> s[i] == t[i - n];
    assert forall i: nat :: i < |t| ==> t[i] == s[n + i];
    if IsFolded(s) {
      forall i: nat | i < |t| ensures IsFoldedAt(t, i) {
        assert IsFoldedAt(s, n + i);
      }
    }
    if IsFolded(t) {
      forall i: nat | i < |s| ensures IsFoldedAt(s, i) {
        if n <= i { assert IsFoldedAt(t, i - n); }
      }
    }
  }

  /** The state machine accepts exactly the folded texts. */
  lemma {:induction false} TextAcceptedIffFolded(s: bytes)
    ensures CheckText(s, Any).Ok? <==> IsFolded(s)
  {
    if s == [] {
    } else if s[0] == CR {
      FoldRejected(s);
      if |s| >= 3 && s[1] == LF && IsBlank(s[2]) {
        FoldAccepted(s);
        TextAcceptedIffFolded(s[3..]);
        FoldedTail(s, 3);
      } else {
        assert !IsFoldedAt(s, 0);
      }
    } else if IsTextByte(s[0]) {
      TextAcceptedIffFolded(s[1..]);
      FoldedTail(s, 1);
    } else {
      assert !IsFoldedAt(s, 0);
    }
  }

  /** The text goes well up to a byte that is neither printable nor the start of a line break. */
  ghost predicate HasStray(s: bytes) {
    exists i: nat :: IsStrayAt(s, i)
  }

  predicate IsStrayAt(s: bytes, i: nat) {
    i < |s| && IsFolded(s[..i]) && !IsTextByte(s[i]) && s[i] != CR
  }

  lemma StrayTail(s: bytes, n: nat)
    requires (n == 1 && |s| >= 1 && IsTextByte(s[0]))
          || (n == 3 && |s| >= 3 && s[0] == CR && s[1] == LF && IsBlank(s[2]))
    ensures HasStray(s) <==> HasStray(s[n..])
  {
    if i: nat :| IsStrayAt(s, i) {
      assert n == 3 ==> !IsFoldedAt(s[..1], 0) && !IsFoldedAt(s[..2], 0) && IsTextByte(s[2]);
      FoldedTail(s[..i], n);
      assert s[..i][n..] == s[n..][..i - n];
      assert IsStrayAt(s[n..], i - n);
    }
    if i: nat :| IsStrayAt(s[n..], i) {
      FoldedTail(s[..n + i], n);
      assert s[..n + i][n..] == s[n..][..i];
      assert IsStrayAt(s, n + i);
    }
  }

  /** Which of the two errors a rejected text gets. */
  lemma {:induction false} TextErrorExact(s: bytes)
    ensures HasStray(s) ==> CheckText(s, Any) == Err(InvalidAscii)
    ensures !HasStray(s) && CheckText(s, Any).Err? ==> CheckText(s, Any) == Err(InvalidLineBreak)
    decreases |s|
  {
    if s == [] {
    } else if s[0] == CR {
      if |s| >= 3 && s[1] == LF && IsBlank(s[2]) {
        FoldAccepted(s);
        TextErrorExact(s[3..]);
        StrayTail(s, 3);
      } else {
        FoldBroken(s);
        forall i: nat ensures !IsStrayAt(s, i) {
          assert 0 < i < |s| ==> !IsFoldedAt(s[..i], 0);
        }
      }
    } else if IsTextByte(s[0]) {
      TextErrorExact(s[1..]);
      StrayTail(s, 1);
    } else {
      assert s[..0] == [];
      assert IsStrayAt(s, 0);
    }
  }

  lemma FoldBroken(s: bytes)
    requires s != [] && s[0] == CR && !(|s| >= 3 && s[1] == LF && IsBlank(s[2]))
    ensures CheckText(s, Any) == Err(InvalidLineBreak)
  {
    assert CheckText(s, Any) == CheckText(s[1..], LineFeed);
    if |s| >= 2 {
      assert s[1..][0] == s[1] && s[1..][1..] == s[2..];
      if s[1] == LF {
        assert CheckText(s, Any) == CheckText(s[2..], SpaceOrTab);
        if |s| >= 3 {
          assert s[2..][0] == s[2];
        }
      }
    }
  }

  lemma FoldAccepted(s: bytes)
    requires |s| >= 3 && s[0] == CR && s[1] == LF && IsBlank(s[2])
    ensures CheckText(s, Any) == CheckText(s[3..], Any)
  {
    assert s[1..][0] == s[1] && s[1..][1..] == s[2..];
    assert s[2..][0] == s[2] && s[2..][1..] == s[3..];
    assert CheckText(s, Any) == CheckText(s[1..], LineFeed) == CheckText(s[2..], SpaceOrTab);
  }

  lemma FoldRejected(s: bytes)
    requires s != [] && s[0] == CR
    ensures !(|s| >= 3 && s[1] == LF && IsBlank(s[2])) ==> CheckText(s, Any).Err?
  {
    assert CheckText(s, Any) == CheckText(s[1..], LineFeed);
    if |s| >= 2 {
      assert s[1..][0] == s[1] && s[1..][1..] == s[2..];
      assert s[1] == LF ==> CheckText(s, Any) == CheckText(s[2..], SpaceOrTab);
      if |s| >= 3 {
        assert s[2..][0] == s[2];
      }
    }
  }

  // ---------------------------------------------------------------- versions

  datatype Version = Rtsp10 | Rtsp20

  datatype VersionError = InvalidVersion | UnknownVersion(major: nat, minor: nat)

  function ParseVersion(s: bytes): (r: Result<Version, VersionError>)
  {
    if |s| != 8 || Upper(s[..5]) != RTSP_SLASH || s[6] != 46 then Err(InvalidVersion)
    else if s[5] < 48 || s[7] < 48 then Err(InvalidVersion)
    else
      var major, minor := s[5] - 48, s[7] - 48;
      if major == 1 && minor == 0 then Ok(Rtsp10)
      else if major == 2 && minor == 0 then Ok(Rtsp20)
      else if major > 9 || minor > 9 then Err(InvalidVersion)
      else Err(UnknownVersion(major, minor))
  }

  // ---------------------------------------------------------------- status codes, reason phrases

  datatype StatusError = InvalidStatus | StatusOutOfRange | StatusRemoved

  /** What is left of a byte when the digit zero is subtracted from it as a byte, with wrap-around. */
  function Weigh(b: byte): byte {
    if b >= 48 then b - 48 else b + 208
  }

  /** Three bytes are weighed as digits; they need not be digits. */
  function ParseStatus(s: bytes): (r: Result<nat, StatusError>)
  {
    if |s| != 3 then Err(InvalidStatus)
    else
      var code: nat := Weigh(s[0]) as int * 100 + Weigh(s[1]) as int * 10 + Weigh(s[2]) as int;
      if code < 100 || 600 <= code then Err(StatusOutOfRange)
      else if code == 303 || code == 352 then Err(StatusRemoved)
      else Ok(code)
  }

  predicate IsStatus(code: nat) {
    100 <= code < 600 && code != 303 && code != 352
  }

  datatype ReasonError = EmptyReason | InvalidReasonAscii | InvalidReasonUtf8

  function ParseReason(s: bytes): (r: Result<bytes, ReasonError>)
  {
    if !IsUtf8(s) then Err(InvalidReasonUtf8)
    else if s == [] then Err(EmptyReason)
    else if exists i :: 0 <= i < |s| && !IsTextByte(s[i]) then Err(InvalidReasonAscii)
    else Ok(s)
  }

  // ---------------------------------------------------------------- content lengths

  const MAX_CONTENT_LENGTH: nat := 9_999_999_999_999_999_999

  predicate IsDigit(b: byte) {
    48 <= b <= 57
  }

  predicate AreDigits(s: bytes) {
    forall i :: 0 <= i < |s| ==> IsDigit(s[i])
  }

  /** One plus sign in front is let through. */
  function Unsigned(s: bytes): bytes {
    if s != [] && s[0] == 43 then s[1..] else s
  }

  function DigitsValue(s: bytes): (n: nat)
    requires AreDigits(s)
  {
    if s == [] then 0
    else
      var last := s[|s| - 1];
      assert IsDigit(last);
      DigitsValue(s[..|s| - 1]) * 10 + (last as int - 48)
  }

  /** The integer parser allows one leading plus sign and any number of leading zeros. */
  function ParseLength(s: bytes): (r: Option<nat>)
    ensures r.Some? ==> r.value <= MAX_CONTENT_LENGTH
  {
    var digits := Unsigned(s);
    if digits == [] || !AreDigits(digits) then None
    else if DigitsValue(digits) > MAX_CONTENT_LENGTH then None
    else Some(DigitsValue(digits))
  }

  function Decimal(n: nat): (s: bytes)
    ensures s != [] && forall i :: 0 <= i < |s| ==> IsDigit(s[i])
    ensures n < 10 ==> |s| == 1
  {
    if n < 10 then [n + 48] else Decimal(n / 10) + [n % 10 + 48]
  }

  lemma {:induction false} DecimalValue(n: nat)
    ensures DigitsValue(Decimal(n)) == n
  {
    var s := Decimal(n);
    if n < 10 {
      assert s[..0] == [];
    } else {
      assert s[..|s| - 1] == Decimal(n / 10);
      DecimalValue(n / 10);
    }
  }

  lemma DecimalIsText(n: nat)
    ensures ParseHeaderValue(Decimal(n)) == Ok(Decimal(n))
  {
    var s := Decimal(n);
    AsciiIsUtf8(s);
    assert forall i: nat :: i < |s| ==> IsDigit(s[i]);
    TextAcceptedIffFolded(s);
  }

  lemma DecimalRoundTrip(n: nat)
    requires n <= MAX_CONTENT_LENGTH
    ensures ParseLength(Decimal(n)) == Some(n)
  {
    DecimalValue(n);
    assert IsDigit(Decimal(n)[0]);
  }

  lemma DecimalOfThreeDigits(a: nat, b: nat, c: nat)
    requires 1 <= a < 10 && b < 10 && c < 10
    ensures Decimal(a * 100 + b * 10 + c) == [a + 48, b + 48, c + 48]
  {
    assert (a * 100 + b * 10 + c) / 10 == a * 10 + b;
    assert (a * 10 + b) / 10 == a;
    assert Decimal(a * 10 + b) == [a + 48] + [b + 48];
  }

  lemma ParseThreeDigits(a: nat, b: nat, c: nat)
    requires a < 10 && b < 10 && c < 10 && IsStatus(a * 100 + b * 10 + c)
    ensures ParseStatus([a + 48, b + 48, c + 48]) == Ok(a * 100 + b * 10 + c)
  {
  }

  lemma StatusRoundTrip(code: nat)
    requires IsStatus(code)
    ensures |Decimal(code)| == 3 && ParseStatus(Decimal(code)) == Ok(code)
  {
    var tens, c := code / 10, code % 10;
    var a, b := tens / 10, tens % 10;
    assert code == a * 100 + b * 10 + c;
    DecimalOfThreeDigits(a, b, c);
    ParseThreeDigits(a, b, c);
  }
}
