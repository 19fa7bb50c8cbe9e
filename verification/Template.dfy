/**
 The HTML template renderer: escaping by five successive replacements, and rendering by two
 passes of placeholder substitution. Looking a path up in the data is an arbitrary function
 from the text between the braces to a value, None for undefined.
 */
module Template {
  import opened Options

  // ---------------------------------------------------------------------------
  // Escaping
  // ---------------------------------------------------------------------------

  /** Global replacement of one character by a text. */
  function ReplaceAll(s: string, c: char, entity: string): string {
    if s == "" then "" else (if s[0] == c then entity else [s[0]]) + ReplaceAll(s[1..], c, entity)
  }

  function EscapeHtml(s: string): string {
    ReplaceAll(ReplaceAll(ReplaceAll(ReplaceAll(ReplaceAll(s,
      '&', "&amp;"), '<', "&lt;"), '>', "&gt;"), '"', "&quot;"), '\'', "&#039;")
  }

  /** The entity of one character. */
  function Entity(c: char): string {
    match c
    case '&' => "&amp;"
    case '<' => "&lt;"
    case '>' => "&gt;"
    case '"' => "&quot;"
    case '\'' => "&#039;"
    case _ => [c]
  }

  function MapEntities(s: string): string {
    if s == "" then "" else Entity(s[0]) + MapEntities(s[1..])
  }

  lemma {:induction false} ReplaceConcat(a: string, b: string, c: char, entity: string)
    ensures ReplaceAll(a + b, c, entity) == ReplaceAll(a, c, entity) + ReplaceAll(b, c, entity)
  {
    if a == "" {
      assert a + b == b;
    } else {
      assert (a + b)[1..] == a[1..] + b;
      ReplaceConcat(a[1..], b, c, entity);
    }
  }

  lemma {:induction false} ReplaceAbsent(s: string, c: char, entity: string)
    requires c !in s
    ensures ReplaceAll(s, c, entity) == s
  {
    if s != "" {
      assert forall x :: x in s[1..] ==> x in s;
      ReplaceAbsent(s[1..], c, entity);
    }
  }

  lemma ReplaceOne(x: char, c: char, entity: string)
    ensures ReplaceAll([x], c, entity) == if x == c then entity else [x]
  {
  }

  /** The replacements still to come after the first, second, third and fourth one. */
  function From2(s: string): string { From3(ReplaceAll(s, '<', "&lt;")) }
  function From3(s: string): string { From4(ReplaceAll(s, '>', "&gt;")) }
  function From4(s: string): string { From5(ReplaceAll(s, '"', "&quot;")) }
  function From5(s: string): string { ReplaceAll(s, '\'', "&#039;") }

  lemma Clean5(s: string)
    requires '\'' !in s
    ensures From5(s) == s
  {
    ReplaceAbsent(s, '\'', "&#039;");
  }

  lemma Clean4(s: string)
    requires '"' !in s && '\'' !in s
    ensures From4(s) == s
  {
    ReplaceAbsent(s, '"', "&quot;");
    Clean5(s);
  }

  lemma Clean3(s: string)
    requires '>' !in s && '"' !in s && '\'' !in s
    ensures From3(s) == s
  {
    ReplaceAbsent(s, '>', "&gt;");
    Clean4(s);
  }

  lemma Clean2(s: string)
    requires '<' !in s && '>' !in s && '"' !in s && '\'' !in s
    ensures From2(s) == s
  {
    ReplaceAbsent(s, '<', "&lt;");
    Clean3(s);
  }

  lemma EscapeOne(c: char)
    ensures EscapeHtml([c]) == Entity(c)
  {
    hide ReplaceAll;
    ReplaceOne(c, '&', "&amp;");
    if c == '&' {
      Clean2("&amp;");
    } else if c == '<' {
      ReplaceOne(c, '<', "&lt;");
      Clean3("&lt;");
    } else if c == '>' {
      ReplaceOne(c, '<', "&lt;");
      ReplaceOne(c, '>', "&gt;");
      Clean4("&gt;");
    } else if c == '"' {
      ReplaceOne(c, '<', "&lt;");
      ReplaceOne(c, '>', "&gt;");
      ReplaceOne(c, '"', "&quot;");
      Clean5("&quot;");
    } else if c == '\'' {
      ReplaceOne(c, '<', "&lt;");
      ReplaceOne(c, '>', "&gt;");
      ReplaceOne(c, '"', "&quot;");
      ReplaceOne(c, '\'', "&#039;");
    } else {
      Clean2([c]);
    }
  }

  lemma EscapeConcat(a: string, b: string)
    ensures EscapeHtml(a + b) == EscapeHtml(a) + EscapeHtml(b)
  {
    var a1, b1 := ReplaceAll(a, '&', "&amp;"), ReplaceAll(b, '&', "&amp;");
    var a2, b2 := ReplaceAll(a1, '<', "&lt;"), ReplaceAll(b1, '<', "&lt;");
    var a3, b3 := ReplaceAll(a2, '>', "&gt;"), ReplaceAll(b2, '>', "&gt;");
    var a4, b4 := ReplaceAll(a3, '"', "&quot;"), ReplaceAll(b3, '"', "&quot;");
    ReplaceConcat(a, b, '&', "&amp;");
    ReplaceConcat(a1, b1, '<', "&lt;");
    ReplaceConcat(a2, b2, '>', "&gt;");
    ReplaceConcat(a3, b3, '"', "&quot;");
    ReplaceConcat(a4, b4, '\'', "&#039;");
  }

  /** The five replacements, the ampersand first, are one per-character map: no entity is escaped again. */
  lemma {:induction false} EscapeIsPerCharacter(s: string)
    ensures EscapeHtml(s) == MapEntities(s)
  {
    if s != "" {
      assert s == [s[0]] + s[1..];
      EscapeConcat([s[0]], s[1..]);
      EscapeOne(s[0]);
      EscapeIsPerCharacter(s[1..]);
    }
  }

  predicate StartsWith(s: string, prefix: string) {
    |prefix| <= |s| && s[..|prefix|] == prefix
  }

  /** Reads entities back. */
  function Unescape(s: string): string
    decreases |s|
  {
    if s == "" then ""
    else if StartsWith(s, "&amp;") then ['&'] + Unescape(s[5..])
    else if StartsWith(s, "&lt;") then ['<'] + Unescape(s[4..])
    else if StartsWith(s, "&gt;") then ['>'] + Unescape(s[4..])
    else if StartsWith(s, "&quot;") then ['"'] + Unescape(s[6..])
    else if StartsWith(s, "&#039;") then ['\''] + Unescape(s[6..])
    else [s[0]] + Unescape(s[1..])
  }

  lemma StartsDifferently(s: string, p: string, i: nat)
    requires i < |s| && i < |p| && s[i] != p[i]
    ensures !StartsWith(s, p)
  {
  }

  lemma UnescapeEntity(c: char, rest: string)
    ensures Unescape(Entity(c) + rest) == [c] + Unescape(rest)
  {
    var e := Entity(c);
    var s := e + rest;
    var i := if c in {'&', '<', '>', '"', '\''} then 1 else 0;
    assert s[i] == e[i];
    if c != '&' { StartsDifferently(s, "&amp;", i); }
    if c != '<' { StartsDifferently(s, "&lt;", i); }
    if c != '>' { StartsDifferently(s, "&gt;", i); }
    if c != '"' { StartsDifferently(s, "&quot;", i); }
    if c != '\'' { StartsDifferently(s, "&#039;", i); }
    assert s[..|e|] == e && s[|e|..] == rest;
  }

  /** Escaping loses nothing, for any text whatever. */
  lemma {:induction false} EscapeIsInvertible(s: string)
    ensures Unescape(EscapeHtml(s)) == s
  {
    EscapeIsPerCharacter(s);
    if s != "" {
      EscapeIsInvertible(s[1..]);
      EscapeIsPerCharacter(s[1..]);
      UnescapeEntity(s[0], MapEntities(s[1..]));
    }
  }

  predicate IsMarkup(c: char) {
    c == '<' || c == '>' || c == '"' || c == '\''
  }

  /** Escaped text cannot open or close a tag or end an attribute. */
  lemma {:induction false} EscapedIsInert(s: string, c: char)
    requires IsMarkup(c)
    ensures c !in EscapeHtml(s)
  {
    EscapeIsPerCharacter(s);
    if s != "" {
      EscapeIsPerCharacter(s[1..]);
      EscapedIsInert(s[1..], c);
      assert c !in Entity(s[0]);
    }
  }

  // ---------------------------------------------------------------------------
  // Rendering
  // ---------------------------------------------------------------------------

  /** The length of the longest prefix without '}'. */
  function Span(s: string): (n: nat)
    ensures n <= |s|
    ensures '}' !in s[..n]
    ensures n < |s| ==> s[n] == '}'
  {
    if s == "" || s[0] == '}' then 0 else
      var n := Span(s[1..]);
      assert s[..n + 1] == [s[0]] + s[1..][..n];
      n + 1
  }

  const TWO := "{{"
  const THREE := "{{{"

  /** As many closing braces as there are opening ones. */
  function Closing(open: string): string {
    if open == "" then "" else "}" + Closing(open[1..])
  }

  /** The path of a placeholder that starts right here: the braces, a non-empty run without '}', the closing braces. */
  function MatchHere(s: string, open: string): Option<string> {
    if !StartsWith(s, open) then None else
      var body := s[|open|..];
      var n := Span(body);
      if n > 0 && StartsWith(body[n..], Closing(open)) then Some(body[..n]) else None
  }

  lemma {:induction false} SpanOf(a: string, rest: string)
    requires '}' !in a && rest != "" && rest[0] == '}'
    ensures Span(a + rest) == |a|
  {
    if a == "" {
      assert a + rest == rest;
    } else {
      assert (a + rest)[1..] == a[1..] + rest;
      SpanOf(a[1..], rest);
    }
  }

  lemma ClosingBraces(open: string)
    requires open == TWO || open == THREE
    ensures Closing(open) == if open == TWO then "}}" else "}}}"
  {
    assert THREE[1..] == TWO && TWO[1..] == "{" && "{"[1..] == "";
  }

  lemma MatchOfText(path: string, rest: string, open: string, close: string)
    requires path != "" && '}' !in path
    requires close == Closing(open) && close != "" && close[0] == '}'
    ensures MatchHere(open + (path + (close + rest)), open) == Some(path)
  {
    var tail := close + rest;
    var body := path + tail;
    var s := open + body;
    hide Closing;
    assert s[..|open|] == open && s[|open|..] == body;
    SpanOf(path, tail);
    assert body[..|path|] == path && body[|path|..] == tail && tail[..|close|] == close;
  }

  lemma TextOfMatch(s: string, path: string, open: string, close: string) returns (rest: string)
    requires close == Closing(open)
    requires MatchHere(s, open) == Some(path)
    ensures path != "" && '}' !in path && s == open + (path + (close + rest))
  {
    hide Closing;
    var body := s[|open|..];
    var tail := body[|path|..];
    rest := tail[|close|..];
    assert tail == close + rest;
    assert body == path + tail;
    assert s == open + body;
  }

  /** Text that starts with a double-brace or triple-brace placeholder. */
  function WithPlaceholder(open: string, path: string, rest: string): string {
    open + (path + ((if open == TWO then "}}" else "}}}") + rest))
  }

  /**
   A placeholder is the braces, a path that is not empty and has no closing brace, and as many
   braces: this and nothing else.
   */
  lemma MatchExactlyWhen(s: string, path: string, open: string)
    requires open == TWO || open == THREE
    ensures MatchHere(s, open) == Some(path) <==>
            && path != "" && '}' !in path
            && exists rest :: s == WithPlaceholder(open, path, rest)
    ensures TWO == "{{" && THREE == "{{{"
  {
    var close := if open == TWO then "}}" else "}}}";
    ClosingBraces(open);
    hide MatchHere, Closing;
    if MatchHere(s, open) == Some(path) {
      var rest := TextOfMatch(s, path, open, close);
      assert s == WithPlaceholder(open, path, rest);
    }
    if path != "" && '}' !in path {
      if rest :| s == WithPlaceholder(open, path, rest) {
        MatchOfText(path, rest, open, close);
      }
    }
  }

  /** Global replacement of placeholders from left to right; a replacement is not looked at again. */
  function Substitute(s: string, open: string, value: string -> string): string
    requires open == TWO || open == THREE
    decreases |s|
  {
    if s == "" then "" else
      match MatchHere(s, open)
      case Some(path) => value(path) + Substitute(s[2 * |open| + |path|..], open, value)
      case None => [s[0]] + Substitute(s[1..], open, value)
  }

  function RawValue(v: Option<string>): string {
    if v.None? then "" else v.value
  }

  function EscapedValue(v: Option<string>): string {
    if v.None? then "" else EscapeHtml(v.value)
  }

  function RenderTemplate(template: string, lookup: string -> Option<string>): string {
    var raw := Substitute(template, THREE, path => RawValue(lookup(path)));
    Substitute(raw, TWO, path => EscapedValue(lookup(path)))
  }

  /** A template as its author sees it: literal characters and placeholders. */
  datatype Piece = Literal(c: char) | Hole(path: string)

  function Print(pieces: seq<Piece>): string {
    if pieces == [] then "" else
      (match pieces[0] case Literal(c) => [c] case Hole(path) => TWO + path + "}}") + Print(pieces[1..])
  }

  /** Literal text as it is, each value escaped exactly once and nothing for a missing one, nothing scanned again. */
  function Expand(pieces: seq<Piece>, lookup: string -> Option<string>): string {
    if pieces == [] then "" else
      (match pieces[0]
       case Literal(c) => [c]
       case Hole(path) => match lookup(path) case None => "" case Some(v) => EscapeHtml(v))
      + Expand(pieces[1..], lookup)
  }

  /** The pieces of any text: a placeholder wherever one starts, reading from the left. */
  function Pieces(s: string): seq<Piece>
    decreases |s|
  {
    if s == "" then [] else
      match MatchHere(s, TWO)
      case Some(path) => [Hole(path)] + Pieces(s[4 + |path|..])
      case None => [Literal(s[0])] + Pieces(s[1..])
  }

  lemma MatchedText(s: string, path: string)
    requires MatchHere(s, TWO) == Some(path)
    ensures 4 + |path| <= |s|
    ensures s == TWO + path + "}}" + s[4 + |path|..]
  {
  }

  /** Cutting a text into pieces loses nothing, and the escaping pass is the expansion of the pieces. */
  lemma {:induction false} SecondPassExpandsPieces(s: string, lookup: string -> Option<string>)
    ensures Print(Pieces(s)) == s
    ensures Substitute(s, TWO, path => EscapedValue(lookup(path))) == Expand(Pieces(s), lookup)
    decreases |s|
  {
    if s != "" {
      match MatchHere(s, TWO)
      case Some(path) =>
        MatchedText(s, path);
        SecondPassExpandsPieces(s[4 + |path|..], lookup);
        assert Pieces(s)[1..] == Pieces(s[4 + |path|..]);
      case None =>
        SecondPassExpandsPieces(s[1..], lookup);
        assert Pieces(s)[1..] == Pieces(s[1..]);
        assert s == [s[0]] + s[1..];
    }
  }

  /** No triple-brace placeholder starts anywhere. */
  ghost predicate NoTriple(s: string) {
    forall i :: 0 <= i < |s| ==> MatchHere(s[i..], THREE).None?
  }

  lemma {:induction false} FirstPassIsIdentity(s: string, value: string -> string)
    requires NoTriple(s)
    ensures Substitute(s, THREE, value) == s
    decreases |s|
  {
    if s != "" {
      assert s[0..] == s;
      assert forall i :: 0 <= i < |s| - 1 ==> s[1..][i..] == s[i + 1..];
      FirstPassIsIdentity(s[1..], value);
    }
  }

  /**
   Without triple-brace placeholders a template renders as its literal text with each value
   escaped once; values are never scanned for placeholders, whatever they contain.
   */
  lemma RenderExpandsPieces(template: string, lookup: string -> Option<string>)
    requires NoTriple(template)
    ensures RenderTemplate(template, lookup) == Expand(Pieces(template), lookup)
  {
    FirstPassIsIdentity(template, path => RawValue(lookup(path)));
    SecondPassExpandsPieces(template, lookup);
  }

  // ---------------------------------------------------------------------------
  // Templates written as text and placeholders
  // ---------------------------------------------------------------------------

  predicate GoodPath(path: string) {
    path != "" && '{' !in path && '}' !in path
  }

  /** Paths without braces, and an opening brace of the literal text only in front of a literal that is none. */
  predicate PieceOk(pieces: seq<Piece>, i: nat)
    requires i < |pieces|
  {
    match pieces[i]
    case Hole(path) => GoodPath(path)
    case Literal(c) => c == '{' ==> i + 1 < |pieces| && pieces[i + 1].Literal? && pieces[i + 1].c != '{'
  }

  predicate WellWritten(pieces: seq<Piece>) {
    forall i :: 0 <= i < |pieces| ==> PieceOk(pieces, i)
  }

  lemma WellWrittenTail(pieces: seq<Piece>)
    requires pieces != []
    ensures WellWritten(pieces) <==> PieceOk(pieces, 0) && WellWritten(pieces[1..])
  {
    assert forall i :: 0 <= i < |pieces| - 1 ==> (PieceOk(pieces, i + 1) <==> PieceOk(pieces[1..], i));
    if PieceOk(pieces, 0) && WellWritten(pieces[1..]) {
      forall i | 0 <= i < |pieces| ensures PieceOk(pieces, i) {
        assert i > 0 ==> PieceOk(pieces[1..], i - 1);
      }
    }
  }

  lemma {:induction false} SpanStops(a: string, rest: string)
    requires '}' !in a
    ensures Span(a + "}" + rest) == |a|
  {
    var s := a + "}" + rest;
    if a != "" {
      assert s[1..] == a[1..] + "}" + rest;
      SpanStops(a[1..], rest);
    }
  }

  lemma MatchHole(path: string, rest: string)
    requires path != "" && '}' !in path
    ensures MatchHere(TWO + path + "}}" + rest, TWO) == Some(path)
    ensures (TWO + path + "}}" + rest)[4 + |path|..] == rest
  {
    var s := TWO + path + "}}" + rest;
    var body := path + "}" + ("}" + rest);
    assert s == TWO + body && s[2..] == body;
    SpanStops(path, "}" + rest);
    assert Closing(TWO) == "}}";
    assert body[|path|..] == "}}" + rest && body[..|path|] == path;
    assert s[..2] == TWO;
    assert ("}}" + rest)[..2] == "}}";
  }

  lemma PrintOne(p: Piece)
    ensures Print([p]) == match p case Literal(c) => [c] case Hole(path) => TWO + path + "}}"
  {
    assert [p][1..] == [];
    assert Print([]) == "";
    assert Print([p]) == (match p case Literal(c) => [c] case Hole(path) => TWO + path + "}}") + "";
  }

  /** Text that starts with a literal starts with its character. */
  lemma PrintStarts(pieces: seq<Piece>)
    requires pieces != [] && pieces[0].Literal?
    ensures Print(pieces) == [pieces[0].c] + Print(pieces[1..])
  {
  }

  /** No placeholder of either kind starts at a literal of a well-written template. */
  lemma LiteralStartsNothing(c: char, rest: string, open: string)
    requires open == TWO || open == THREE
    requires c == '{' ==> rest != "" && rest[0] != '{'
    ensures !StartsWith([c] + rest, open)
  {
    StartsDifferently([c] + rest, open, if c == '{' then 1 else 0);
  }

  /** In a well-written template only the printed placeholders are placeholders. */
  lemma {:induction false} PiecesOfPrint(pieces: seq<Piece>)
    requires WellWritten(pieces)
    ensures Pieces(Print(pieces)) == pieces
  {
    if pieces != [] {
      var rest := Print(pieces[1..]);
      WellWrittenTail(pieces);
      PiecesOfPrint(pieces[1..]);
      match pieces[0]
      case Literal(c) =>
        if c == '{' {
          assert PieceOk(pieces, 0);
          PrintStarts(pieces[1..]);
        }
        LiteralStartsNothing(c, rest, TWO);
        assert Print(pieces) == [c] + rest && ([c] + rest)[1..] == rest;
      case Hole(path) =>
        assert PieceOk(pieces, 0);
        MatchHole(path, rest);
    }
  }

  /** A placeholder has no third opening brace at any of its positions. */
  lemma NoTripleInHole(path: string, rest: string, i: nat)
    requires GoodPath(path)
    requires i < 4 + |path|
    ensures !StartsWith((TWO + path + "}}" + rest)[i..], THREE)
  {
    var s := TWO + path + "}}" + rest;
    if i < 2 {
      assert s[2] == path[0] && path[0] in path;
      StartsDifferently(s[i..], THREE, 2 - i);
    } else if i < 2 + |path| {
      assert s[i] == path[i - 2] && path[i - 2] in path;
      StartsDifferently(s[i..], THREE, 0);
    } else {
      assert s[i] == '}';
      StartsDifferently(s[i..], THREE, 0);
    }
  }

  lemma {:induction false} NoTripleInPrint(pieces: seq<Piece>, i: nat)
    requires WellWritten(pieces)
    requires i < |Print(pieces)|
    ensures !StartsWith(Print(pieces)[i..], THREE)
  {
    var s, rest := Print(pieces), Print(pieces[1..]);
    WellWrittenTail(pieces);
    assert PieceOk(pieces, 0);
    var k := if pieces[0].Literal? then 1 else 4 + |pieces[0].path|;
    if i >= k {
      assert s[i..] == rest[i - k..];
      NoTripleInPrint(pieces[1..], i - k);
    } else if pieces[0].Literal? {
      if pieces[0].c == '{' {
        PrintStarts(pieces[1..]);
      }
      assert s[i..] == s == [pieces[0].c] + rest;
      LiteralStartsNothing(pieces[0].c, rest, THREE);
    } else {
      NoTripleInHole(pieces[0].path, rest, i);
    }
  }

  /** Writing a template down and rendering it puts every escaped value exactly where its placeholder was written. */
  lemma RenderOfPrint(pieces: seq<Piece>, lookup: string -> Option<string>)
    requires WellWritten(pieces)
    ensures RenderTemplate(Print(pieces), lookup) == Expand(pieces, lookup)
  {
    forall i | 0 <= i < |Print(pieces)| ensures MatchHere(Print(pieces)[i..], THREE).None? {
      NoTripleInPrint(pieces, i);
    }
    PiecesOfPrint(pieces);
    RenderExpandsPieces(Print(pieces), lookup);
  }
}
