/** Comments and folding white space in dates: the grammar of section 3.2.2 of RFC 5322 with the
    character sets of this parser, and the parser that recognises it. */
module Comments {
  import opened Bytes

  // ---------------------------------------------------------------- the grammar

  predicate IsWsp(c: char) {
    c == ' ' || c == '\t'
  }

  predicate IsText(c: char) {
    ('!' <= c <= '\'') || ('*' <= c <= '[') || (']' <= c <= '~')
  }

  predicate IsQuotable(c: char) {
    ('!' < c && c < '~') || IsWsp(c)
  }

  /** White space, with line breaks between blanks. */
  predicate IsFws(s: string) {
    && s != "" && IsWsp(s[0])
    && (|s| == 1 || IsFws(s[1..]) || (|s| > 3 && s[1..3] == "\r\n" && IsFws(s[3..])))
  }

  /** What follows the opening parenthesis of a comment. */
  datatype Parts =
    | Close
    | Fold(space: string, rest: Parts)
    | Text(c: char, rest: Parts)
    | Quoted(c: char, rest: Parts)
    | Nested(inner: Parts, rest: Parts)

  /** White space is not followed by white space. */
  predicate IsParts(p: Parts) {
    match p
    case Close => true
    case Fold(space, rest) => IsFws(space) && !rest.Fold? && IsParts(rest)
    case Text(c, rest) => IsText(c) && IsParts(rest)
    case Quoted(c, rest) => IsQuotable(c) && IsParts(rest)
    case Nested(inner, rest) => IsParts(inner) && IsParts(rest)
  }

  function Show(p: Parts): (s: string)
    ensures s != ""
    ensures !p.Fold? ==> IsParts(p) ==> !IsWsp(s[0]) && s[0] != '\r'
  {
    match p
    case Close => ")"
    case Fold(space, rest) => space + Show(rest)
    case Text(c, rest) => [c] + Show(rest)
    case Quoted(c, rest) => ['\\', c] + Show(rest)
    case Nested(inner, rest) => "(" + Show(inner) + Show(rest)
  }

  ghost predicate IsComment(s: string) {
    exists p: Parts :: IsParts(p) && s == "(" + Show(p)
  }

  // ---------------------------------------------------------------- the parser as functions

  function Plus(n: nat, r: Option<nat>): Option<nat> {
    if r.Some? then Some(n + r.value) else None
  }

  /** How long the white space is. A carriage return after it must start a fold. */
  function Folding(s: string): (r: Option<nat>)
    ensures r.Some? ==> 1 <= r.value <= |s|
  {
    if s == "" || !IsWsp(s[0]) then None
    else if |s| > 1 && IsWsp(s[1]) then Plus(1, Folding(s[1..]))
    else if |s| > 1 && s[1] == '\r' then
      if |s| > 2 && s[2] == '\n' then Plus(3, Folding(s[3..])) else None
    else Some(1)
  }

  function QuotedPair(s: string): (r: Option<nat>)
    ensures r.Some? ==> r.value == 2 <= |s|
  {
    if |s| >= 2 && s[0] == '\\' && IsQuotable(s[1]) then Some(2) else None
  }

  function Comment(s: string): (r: Option<nat>)
    ensures r.Some? ==> 1 <= r.value <= |s|
    decreases |s|, 0
  {
    if s == "" || s[0] != '(' then None else Plus(1, Inside(s[1..]))
  }

  /** How far the comment goes on, its closing parenthesis included. */
  function Inside(s: string): (r: Option<nat>)
    ensures r.Some? ==> 1 <= r.value <= |s|
    decreases |s|, 1
  {
    if s == "" then None
    else if IsWsp(s[0]) then
      match Folding(s) case Some(n) => Plus(n, Inside(s[n..])) case None => None
    else if s[0] == '(' then
      match Comment(s) case Some(n) => Plus(n, Inside(s[n..])) case None => None
    else if s[0] == ')' then Some(1)
    else if s[0] == '\\' then
      match QuotedPair(s) case Some(n) => Plus(n, Inside(s[n..])) case None => None
    else if IsText(s[0]) then Plus(1, Inside(s[1..]))
    else None
  }

  // ---------------------------------------------------------------- white space

  /** White space ends before anything but a blank or a carriage return. */
  predicate EndsFws(s: string, n: nat) {
    n <= |s| && IsFws(s[..n]) && (n < |s| ==> !IsWsp(s[n]) && s[n] != '\r')
  }

  lemma {:induction false} FoldingSound(s: string)
    requires Folding(s).Some?
    ensures EndsFws(s, Folding(s).value)
    decreases |s|
  {
    var n := Folding(s).value;
    if |s| > 1 && IsWsp(s[1]) {
      FoldingSound(s[1..]);
      assert s[..n][1..] == s[1..][..n - 1];
    } else if |s| > 1 && s[1] == '\r' {
      FoldingSound(s[3..]);
      assert s[..n][3..] == s[3..][..n - 3];
      assert s[..n][1..3] == ['\r', '\n'];
    }
  }

  lemma {:induction false} FoldingComplete(s: string, n: nat)
    requires EndsFws(s, n)
    ensures Folding(s) == Some(n)
    decreases |s|
  {
    var f := s[..n];
    if n > 1 {
      assert s[1] == f[1];
      if IsFws(f[1..]) {
        assert f[1..] == s[1..][..n - 1];
        FoldingComplete(s[1..], n - 1);
      } else {
        assert f[1] == f[1..3][0] && f[2] == f[1..3][1];
        assert f[3..] == s[3..][..n - 3];
        FoldingComplete(s[3..], n - 3);
      }
    }
  }

  /** White space is recognised just when it can be ended, and then as far as it goes. */
  lemma FoldingExact(s: string, n: nat)
    ensures Folding(s) == Some(n) <==> EndsFws(s, n)
  {
    if Folding(s) == Some(n) {
      FoldingSound(s);
    }
    if EndsFws(s, n) {
      FoldingComplete(s, n);
    }
  }

  // ---------------------------------------------------------------- comments

  lemma Cut(a: string, b: string)
    ensures (a + b)[..|a|] == a && (a + b)[|a|..] == b
    ensures a != "" ==> a + b != "" && (a + b)[0] == a[0]
  {
  }

  lemma Joins(s: string, k: nat, n: nat)
    requires k <= n <= |s|
    ensures s[..n] == s[..k] + s[k..][..n - k]
  {
  }

  /** One step of the parser inside a comment, by its first character. */
  lemma InsideSteps(s: string)
    requires s != ""
    ensures IsWsp(s[0]) ==>
      Inside(s) == if Folding(s).Some? then Plus(Folding(s).value, Inside(s[Folding(s).value..])) else None
    ensures s[0] == '(' ==>
      Inside(s) == if Comment(s).Some? then Plus(Comment(s).value, Inside(s[Comment(s).value..])) else None
    ensures s[0] == ')' ==> Inside(s) == Some(1)
    ensures s[0] == '\\' ==> Inside(s) == if |s| >= 2 && IsQuotable(s[1]) then Plus(2, Inside(s[2..])) else None
    ensures IsText(s[0]) ==> Inside(s) == Plus(1, Inside(s[1..]))
    ensures Inside(s).Some? ==> IsWsp(s[0]) || s[0] == '(' || s[0] == ')' || s[0] == '\\' || IsText(s[0])
  {
    hide Folding, IsQuotable;
  }

  lemma CommentOpens(s: string)
    ensures Comment(s) == if s != "" && s[0] == '(' then Plus(1, Inside(s[1..])) else None
  {
  }

  /** What is recognised is in the grammar. */
  lemma {:induction false} InsideSound(s: string) returns (p: Parts)
    requires Inside(s).Some?
    ensures IsParts(p) && Show(p) == s[..Inside(s).value]
    ensures p.Fold? <==> IsWsp(s[0])
    decreases |s|
  {
    hide Inside, Folding, IsFws, IsText, IsQuotable, Comment;
    InsideSteps(s);
    var n := Inside(s).value;
    if IsWsp(s[0]) {
      var k := Folding(s).value;
      FoldingSound(s);
      var rest := InsideSound(s[k..]);
      p := Fold(s[..k], rest);
      Joins(s, k, n);
    } else if s[0] == '(' {
      p := NestedSound(s);
    } else if s[0] == ')' {
      p := Close;
    } else if s[0] == '\\' {
      var rest := InsideSound(s[2..]);
      p := Quoted(s[1], rest);
      Joins(s, 2, n);
    } else {
      var rest := InsideSound(s[1..]);
      p := Text(s[0], rest);
      Joins(s, 1, n);
    }
  }

  lemma {:induction false} NestedSound(s: string) returns (p: Parts)
    requires s != "" && s[0] == '(' && Inside(s).Some?
    ensures IsParts(p) && Show(p) == s[..Inside(s).value] && p.Nested?
    decreases |s|, 0
  {
    hide Inside, Folding, IsFws, IsText, IsQuotable, Comment;
    InsideSteps(s);
    CommentOpens(s);
    var n, k := Inside(s).value, Comment(s).value;
    var inner := InsideSound(s[1..]);
    var rest := InsideSound(s[k..]);
    p := Nested(inner, rest);
    Joins(s, 1, k);
    Joins(s, k, n);
    assert s[..1] == "(";
  }

  /** What is in the grammar is recognised, whatever follows it. */
  lemma {:induction false} InsideComplete(p: Parts, t: string)
    requires IsParts(p)
    ensures Inside(Show(p) + t) == Some(|Show(p)|)
    decreases p
  {
    hide Inside, Folding, IsFws, IsText, IsQuotable, Comment;
    InsideSteps(Show(p) + t);
    match p
    case Close =>
    case Fold(space, rest) =>
      FoldComplete(space, rest, t);
      assert Show(p) + t == space + Show(rest) + t;
      InsideComplete(rest, t);
    case Text(c, rest) =>
      assert Show(p) + t == [c] + (Show(rest) + t);
      Cut([c], Show(rest) + t);
      InsideComplete(rest, t);
    case Quoted(c, rest) =>
      var pair := ['\\', c];
      assert Show(p) + t == pair + (Show(rest) + t);
      Cut(pair, Show(rest) + t);
      InsideComplete(rest, t);
    case Nested(inner, rest) => NestedComplete(inner, rest, t);
  }

  lemma {:induction false} NestedComplete(inner: Parts, rest: Parts, t: string)
    requires IsParts(inner) && IsParts(rest)
    ensures Inside(Show(Nested(inner, rest)) + t) == Some(|Show(Nested(inner, rest))|)
    decreases Nested(inner, rest), 0
  {
    hide Inside, Folding, IsFws, IsText, IsQuotable, Comment;
    var first, later := "(" + Show(inner), Show(rest) + t;
    var s := first + later;
    assert Show(Nested(inner, rest)) + t == s;
    InsideSteps(s);
    InsideComplete(inner, later);
    CommentComplete(inner, later);
    InsideComplete(rest, t);
    Cut(first, later);
  }

  lemma CommentComplete(inner: Parts, t: string)
    requires Inside(Show(inner) + t) == Some(|Show(inner)|)
    ensures Comment("(" + Show(inner) + t) == Some(1 + |Show(inner)|)
  {
    hide Inside, Show;
    var s := "(" + Show(inner) + t;
    assert s == "(" + (Show(inner) + t);
    Cut("(", Show(inner) + t);
  }

  lemma FoldComplete(space: string, rest: Parts, t: string)
    requires IsFws(space) && IsParts(rest) && !rest.Fold?
    ensures var s := space + Show(rest) + t;
      Folding(s) == Some(|space|) && s[|space|..] == Show(rest) + t && IsWsp(s[0])
  {
    var later := Show(rest) + t;
    StartsOther(rest);
    Cut(Show(rest), t);
    FwsStarts(space);
    hide IsFws, Show, Folding;
    var s := space + later;
    assert space + Show(rest) + t == s;
    Cut(space, later);
    FoldingComplete(s, |space|);
  }

  lemma FwsStarts(space: string)
    requires IsFws(space)
    ensures space != "" && IsWsp(space[0])
  {
  }

  lemma StartsOther(p: Parts)
    requires IsParts(p) && !p.Fold?
    ensures Show(p) != "" && !IsWsp(Show(p)[0]) && Show(p)[0] != '\r'
  {
  }

  /** A prefix is taken for a comment just when it is one. */
  lemma CommentExact(s: string, n: nat)
    ensures Comment(s) == Some(n) <==> n <= |s| && IsComment(s[..n])
  {
    hide Inside, Show, IsParts;
    if Comment(s) == Some(n) {
      var p := InsideSound(s[1..]);
      Joins(s, 1, n);
      assert s[..1] == "(";
      assert IsParts(p) && s[..n] == "(" + Show(p);
    }
    if n <= |s| && IsComment(s[..n]) {
      var p: Parts :| IsParts(p) && s[..n] == "(" + Show(p);
      InsideComplete(p, s[n..]);
      CommentComplete(p, s[n..]);
      assert s == s[..n] + s[n..];
    }
  }

  /** So at most one prefix is a comment. */
  lemma CommentUnique(s: string, m: nat, n: nat)
    requires m <= |s| && n <= |s| && IsComment(s[..m]) && IsComment(s[..n])
    ensures m == n
  {
    hide IsComment;
    CommentExact(s, m);
    CommentExact(s, n);
  }

  // ---------------------------------------------------------------- comments and white space

  /** Comments and white space in any number, no two white spaces in a row. */
  datatype Filling =
    | Stop
    | Blank(space: string, rest: Filling)
    | Paren(inner: Parts, rest: Filling)

  predicate IsFilling(f: Filling) {
    match f
    case Stop => true
    case Blank(space, rest) => IsFws(space) && !rest.Blank? && IsFilling(rest)
    case Paren(inner, rest) => IsParts(inner) && IsFilling(rest)
  }

  function ShowFilling(f: Filling): string {
    match f
    case Stop => ""
    case Blank(space, rest) => space + ShowFilling(rest)
    case Paren(inner, rest) => "(" + Show(inner) + ShowFilling(rest)
  }

  predicate EndsBlank(f: Filling) {
    match f
    case Stop => false
    case Blank(_, rest) => rest.Stop? || EndsBlank(rest)
    case Paren(_, rest) => EndsBlank(rest)
  }

  /** The filling goes as far as it can, and no stray carriage return follows white space. */
  predicate Fills(f: Filling, t: string) {
    && IsFilling(f)
    && (t != "" ==> !IsWsp(t[0]) && t[0] != '(')
    && (EndsBlank(f) && t != "" ==> t[0] != '\r')
  }

  function Skip(s: string): (r: Option<nat>)
    ensures r.Some? ==> r.value <= |s|
  {
    if s != "" && s[0] == '(' then
      match Comment(s) case Some(n) => Plus(n, Skip(s[n..])) case None => None
    else if s != "" && IsWsp(s[0]) then
      match Folding(s) case Some(n) => Plus(n, Skip(s[n..])) case None => None
    else Some(0)
  }

  lemma SkipSteps(s: string)
    ensures s != "" && s[0] == '(' ==>
      Skip(s) == if Comment(s).Some? then Plus(Comment(s).value, Skip(s[Comment(s).value..])) else None
    ensures s != "" && IsWsp(s[0]) ==>
      Skip(s) == if Folding(s).Some? then Plus(Folding(s).value, Skip(s[Folding(s).value..])) else None
    ensures s == "" || (s[0] != '(' && !IsWsp(s[0])) ==> Skip(s) == Some(0)
  {
    hide Comment, Folding;
  }

  lemma Tail(s: string, k: nat, n: nat)
    requires k <= n <= |s|
    ensures s[n..] == s[k..][n - k..]
  {
  }

  lemma {:induction false} SkipSound(s: string) returns (f: Filling)
    requires Skip(s).Some?
    ensures ShowFilling(f) == s[..Skip(s).value] && Fills(f, s[Skip(s).value..])
    ensures f.Blank? <==> s != "" && IsWsp(s[0])
    decreases |s|
  {
    hide Skip, Comment, Inside, Folding, IsFws, Show, IsParts;
    SkipSteps(s);
    if s != "" && s[0] == '(' {
      f := ParenSound(s);
    } else if s != "" && IsWsp(s[0]) {
      f := BlankSound(s);
    } else {
      f := Stop;
    }
  }

  lemma {:induction false} ParenSound(s: string) returns (f: Filling)
    requires s != "" && s[0] == '(' && Skip(s).Some?
    ensures ShowFilling(f) == s[..Skip(s).value] && Fills(f, s[Skip(s).value..]) && f.Paren?
    decreases |s|, 0
  {
    hide Skip, Comment, Inside, Folding, IsFws, Show, IsParts;
    SkipSteps(s);
    CommentOpens(s);
    var n, k := Skip(s).value, Comment(s).value;
    var inner := InsideSound(s[1..]);
    var rest := SkipSound(s[k..]);
    f := Paren(inner, rest);
    Joins(s, 1, k);
    Joins(s, k, n);
    Tail(s, k, n);
    assert s[..1] == "(";
  }

  lemma {:induction false} BlankSound(s: string) returns (f: Filling)
    requires s != "" && IsWsp(s[0]) && Skip(s).Some?
    ensures ShowFilling(f) == s[..Skip(s).value] && Fills(f, s[Skip(s).value..]) && f.Blank?
    decreases |s|, 0
  {
    hide Skip, Comment, Inside, Folding, IsFws, Show, IsParts;
    SkipSteps(s);
    var n, k := Skip(s).value, Folding(s).value;
    FoldingSound(s);
    var rest := SkipSound(s[k..]);
    f := Blank(s[..k], rest);
    Joins(s, k, n);
    Tail(s, k, n);
    assert rest.Stop? ==> n == k;
  }

  lemma {:induction false} SkipComplete(f: Filling, t: string)
    requires Fills(f, t)
    ensures Skip(ShowFilling(f) + t) == Some(|ShowFilling(f)|)
    decreases f
  {
    hide Skip, Comment, Inside, Folding, IsFws, Show, IsParts;
    SkipSteps(ShowFilling(f) + t);
    match f
    case Stop => assert ShowFilling(f) + t == t;
    case Blank(space, rest) =>
      var later := ShowFilling(rest) + t;
      assert ShowFilling(f) + t == space + later;
      AfterBlank(space, rest, t);
      FwsStarts(space);
      Cut(space, later);
      FoldingComplete(space + later, |space|);
      SkipComplete(rest, t);
    case Paren(inner, rest) =>
      var later := ShowFilling(rest) + t;
      var first := "(" + Show(inner);
      assert ShowFilling(f) + t == first + later;
      InsideComplete(inner, later);
      CommentComplete(inner, later);
      Cut(first, later);
      SkipComplete(rest, t);
  }

  lemma AfterBlank(space: string, rest: Filling, t: string)
    requires Fills(Blank(space, rest), t)
    ensures var later := ShowFilling(rest) + t;
      later != "" ==> !IsWsp(later[0]) && later[0] != '\r'
  {
    hide IsParts, Show;
  }

  ghost predicate IsFilled(s: string, n: nat) {
    n <= |s| && exists f: Filling :: ShowFilling(f) == s[..n] && Fills(f, s[n..])
  }

  /** Comments and white space are skipped just when they can be skipped to the end, and then to the end:
      what is left starts with neither. */
  lemma SkipExact(s: string, n: nat)
    ensures Skip(s) == Some(n) <==> IsFilled(s, n)
  {
    hide Skip, Fills;
    if Skip(s) == Some(n) {
      var f := SkipSound(s);
    }
    if IsFilled(s, n) {
      var f: Filling :| ShowFilling(f) == s[..n] && Fills(f, s[n..]);
      assert s == ShowFilling(f) + s[n..];
      SkipComplete(f, s[n..]);
    }
  }

  // ---------------------------------------------------------------- the parser with its offsets

  /** The parts of the string before and after the offset. */
  function SplitAt(s: string, r: Option<nat>): Option<(string, string)>
    requires r.Some? ==> r.value <= |s|
  {
    if r.Some? then Some((s[..r.value], s[r.value..])) else None
  }

  datatype FoldState = InitialWhitespace | Whitespace(required: bool) | LineBreak

  /** What is still to come in each state, if the rest of the white space is to be accepted. */
  function Onward(state: FoldState, s: string): (r: Option<nat>)
    ensures r.Some? ==> r.value <= |s|
  {
    match state
    case InitialWhitespace => Folding(s)
    case LineBreak => if |s| >= 2 && s[0] == '\r' && s[1] == '\n' then Plus(2, Folding(s[2..])) else None
    case Whitespace(required) =>
      if s != "" && IsWsp(s[0]) then Folding(s)
      else if required then None
      else if s != "" && s[0] == '\r' then
        if |s| >= 2 && s[1] == '\n' then Plus(2, Folding(s[2..])) else None
      else Some(0)
  }

  lemma OnwardSteps(s: string)
    requires s != "" && IsWsp(s[0])
    ensures Folding(s) == Plus(1, Onward(Whitespace(false), s[1..]))
  {
    assert |s| > 2 ==> s[1..][2..] == s[3..];
  }

  lemma PlusPlus(a: nat, b: nat, r: Option<nat>)
    ensures Plus(a, Plus(b, r)) == Plus(a + b, r)
  {
  }

  method ParseFoldingWhitespace(value: string) returns (r: Option<(string, string)>)
    ensures r == SplitAt(value, Folding(value))
  {
    var parseState := InitialWhitespace;
    var bytesParsed: nat := 0;
    assert value[0..] == value;
    while true
      invariant bytesParsed <= |value|
      invariant parseState.InitialWhitespace? ==> bytesParsed == 0
      invariant parseState.LineBreak? ==> bytesParsed < |value| && value[bytesParsed] == '\r'
      invariant Folding(value) == Plus(bytesParsed, Onward(parseState, value[bytesParsed..]))
      decreases |value| - bytesParsed, if parseState.LineBreak? then 0 else 1
    {
      hide Folding;
      var chars := value[bytesParsed..];
      match parseState
      case InitialWhitespace =>
        if chars == "" || !IsWsp(chars[0]) {
          NotBlank(chars);
          return None;
        }
        OnwardSteps(chars);
        bytesParsed := 1;
        parseState := Whitespace(false);
      case LineBreak =>
        if |chars| < 2 || chars[1] != '\n' {
          return None;
        }
        var next := chars[2..];
        if next == "" || !IsWsp(next[0]) {
          NotBlank(next);
        }
        PlusPlus(bytesParsed, 2, Folding(next));
        assert next == value[bytesParsed + 2..];
        bytesParsed := bytesParsed + 2;
        parseState := Whitespace(true);
      case Whitespace(required) =>
        if chars != "" && IsWsp(chars[0]) {
          OnwardSteps(chars);
          PlusPlus(bytesParsed, 1, Onward(Whitespace(false), chars[1..]));
          assert chars[1..] == value[bytesParsed + 1..];
          bytesParsed := bytesParsed + 1;
          parseState := Whitespace(false);
        } else if required {
          return None;
        } else if chars != "" && chars[0] == '\r' {
          parseState := LineBreak;
        } else {
          return Some((value[..bytesParsed], value[bytesParsed..]));
        }
    }
  }

  lemma NotBlank(s: string)
    requires s == "" || !IsWsp(s[0])
    ensures Folding(s).None?
  {
  }

  method ParseQuotedPair(value: string) returns (r: Option<(string, string)>)
    ensures r == SplitAt(value, QuotedPair(value))
  {
    if |value| < 2 {
      return None;
    }
    if value[0] == '\\' && (('!' < value[1] && value[1] < '~') || value[1] == ' ' || value[1] == '\t') {
      return Some((value[..2], value[2..]));
    }
    return None;
  }

  /** The offset moves on by what the other parser took, and the characters go on behind it. */
  lemma GoesOn(value: string, offset: nat, k: nat, r: Option<nat>)
    requires offset + k <= |value|
    ensures value[offset..][k..] == value[offset + k..]
    ensures Plus(offset, Plus(k, r)) == Plus(offset + k, r)
  {
  }

  /** One turn of the loop below, except for the closing parenthesis. */
  method ParsePart(chars: string) returns (part: Option<(string, string)>)
    requires chars != "" && chars[0] != ')'
    ensures part.Some? ==> 1 <= |part.value.0| <= |chars|
    ensures Inside(chars) ==
      if part.Some? then Plus(|part.value.0|, Inside(chars[|part.value.0|..])) else None
    decreases |chars|, 1
  {
    hide Comment, Inside, Folding, IsText, IsQuotable, QuotedPair;
    InsideSteps(chars);
    var c := chars[0];
    if IsWsp(c) {
      part := ParseFoldingWhitespace(chars);
    } else if c == '(' {
      part := ParseComment(chars);
    } else if c == '\\' {
      QuotedSteps(chars);
      part := ParseQuotedPair(chars);
    } else if IsText(c) {
      part := Some((chars[..1], chars[1..]));
    } else {
      part := None;
    }
  }

  method ParseComment(value: string) returns (r: Option<(string, string)>)
    ensures r == SplitAt(value, Comment(value))
    decreases |value|, 0
  {
    CommentOpens(value);
    hide Comment, Inside;
    if value == "" || value[0] != '(' {
      return None;
    }
    var bytesParsed: nat := 1;
    while true
      invariant 1 <= bytesParsed <= |value|
      invariant Comment(value) == Plus(bytesParsed, Inside(value[bytesParsed..]))
      decreases |value| - bytesParsed
    {
      var chars := value[bytesParsed..];
      if chars == "" {
        NothingInside();
        return None;
      }
      if chars[0] == ')' {
        ClosesInside(chars);
        return Some((value[..bytesParsed + 1], value[bytesParsed + 1..]));
      }
      var part := ParsePart(chars);
      if part.None? {
        return None;
      }
      GoesOn(value, bytesParsed, |part.value.0|, Inside(chars[|part.value.0|..]));
      bytesParsed := bytesParsed + |part.value.0|;
    }
  }

  lemma ClosesInside(s: string)
    requires s != "" && s[0] == ')'
    ensures Inside(s) == Some(1)
  {
  }

  lemma NothingInside()
    ensures Inside("").None?
  {
  }

  lemma QuotedSteps(s: string)
    requires s != "" && s[0] == '\\'
    ensures QuotedPair(s) == if |s| >= 2 && IsQuotable(s[1]) then Some(2) else None
  {
  }

  predicate StartsFilling(s: string) {
    s != "" && (s[0] == '(' || IsWsp(s[0]))
  }

  /** One turn of the loop below. */
  method ParseOne(chars: string) returns (part: Option<(string, string)>)
    requires StartsFilling(chars)
    ensures part.Some? ==> 1 <= |part.value.0| <= |chars|
    ensures Skip(chars) == if part.Some? then Plus(|part.value.0|, Skip(chars[|part.value.0|..])) else None
  {
    hide Skip, Comment, Folding;
    SkipSteps(chars);
    if chars[0] == '(' {
      part := ParseComment(chars);
    } else {
      part := ParseFoldingWhitespace(chars);
    }
  }

  /** Skips comments and white space; there must be some unless they are optional. */
  method ParseCommentAndFoldingWhitespace(value: string, optional: bool) returns (r: Option<(string, string)>)
    ensures r == if Skip(value) == Some(0) && !optional then None else SplitAt(value, Skip(value))
  {
    hide Comment, Folding, Inside, IsFws;
    var bytesParsed: nat := 0;
    var firstFound := false;
    assert value[0..] == value;
    while true
      invariant bytesParsed <= |value| && (firstFound <==> bytesParsed > 0)
      invariant Skip(value) == Plus(bytesParsed, Skip(value[bytesParsed..]))
      decreases |value| - bytesParsed
    {
      hide Skip, Comment, Folding;
      var chars := value[bytesParsed..];
      if !StartsFilling(chars) {
        SkipSteps(chars);
        return if firstFound || optional then Some((value[..bytesParsed], value[bytesParsed..])) else None;
      }
      var part := ParseOne(chars);
      if part.None? {
        return None;
      }
      firstFound := true;
      GoesOn(value, bytesParsed, |part.value.0|, Skip(chars[|part.value.0|..]));
      bytesParsed := bytesParsed + |part.value.0|;
    }
  }
}
