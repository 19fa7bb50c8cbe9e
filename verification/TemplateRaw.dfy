/**
 Templates with raw placeholders: how they render, and when a raw value comes out verbatim.
 */
module TemplateRaw {
  import opened Options
  import opened Template

  // ---------------------------------------------------------------------------
  // Templates with raw placeholders as well
  // ---------------------------------------------------------------------------

  datatype Mixed = Escaped(piece: Piece) | Raw(path: string)

  function PrintMixed(ms: seq<Mixed>): string {
    if ms == [] then "" else
      (match ms[0] case Escaped(p) => Print([p]) case Raw(path) => THREE + path + "}}}") + PrintMixed(ms[1..])
  }

  /** Raw values as they are, all others escaped once. */
  function ExpandMixed(ms: seq<Mixed>, lookup: string -> Option<string>): string {
    if ms == [] then "" else
      (match ms[0]
       case Escaped(p) => Expand([p], lookup)
       case Raw(path) => match lookup(path) case None => "" case Some(v) => v)
      + ExpandMixed(ms[1..], lookup)
  }

  /** As for templates without raw placeholders; nothing is said of the values. */
  predicate MixedOk(ms: seq<Mixed>, i: nat)
    requires i < |ms|
  {
    match ms[i]
    case Raw(path) => GoodPath(path)
    case Escaped(Hole(path)) => GoodPath(path)
    case Escaped(Literal(c)) =>
      c == '{' ==> i + 1 < |ms| && ms[i + 1].Escaped? && ms[i + 1].piece.Literal? && ms[i + 1].piece.c != '{'
  }

  predicate WellWrittenMixed(ms: seq<Mixed>) {
    forall i :: 0 <= i < |ms| ==> MixedOk(ms, i)
  }

  lemma WellWrittenMixedTail(ms: seq<Mixed>)
    requires ms != [] && WellWrittenMixed(ms)
    ensures MixedOk(ms, 0) && WellWrittenMixed(ms[1..])
  {
    assert forall i :: 0 <= i < |ms| - 1 ==> (MixedOk(ms, i + 1) <==> MixedOk(ms[1..], i));
  }

  function Literals(s: string): seq<Piece> {
    if s == "" then [] else [Literal(s[0])] + Literals(s[1..])
  }

  /** What the first pass leaves: raw values as literal text. */
  function Unraw(ms: seq<Mixed>, lookup: string -> Option<string>): seq<Piece> {
    if ms == [] then [] else
      (match ms[0] case Escaped(p) => [p] case Raw(path) => Literals(RawValue(lookup(path)))) + Unraw(ms[1..], lookup)
  }

  lemma {:induction false} PrintConcat(a: seq<Piece>, b: seq<Piece>)
    ensures Print(a + b) == Print(a) + Print(b)
  {
    if a == [] {
      assert a + b == b;
    } else {
      assert (a + b)[1..] == a[1..] + b;
      PrintConcat(a[1..], b);
    }
  }

  lemma {:induction false} ExpandConcat(a: seq<Piece>, b: seq<Piece>, lookup: string -> Option<string>)
    ensures Expand(a + b, lookup) == Expand(a, lookup) + Expand(b, lookup)
  {
    if a == [] {
      assert a + b == b;
    } else {
      assert (a + b)[1..] == a[1..] + b;
      ExpandConcat(a[1..], b, lookup);
    }
  }

  lemma {:induction false} LiteralText(s: string, lookup: string -> Option<string>)
    ensures Print(Literals(s)) == s && Expand(Literals(s), lookup) == s
  {
    if s != "" {
      LiteralText(s[1..], lookup);
      assert Literals(s)[1..] == Literals(s[1..]);
      assert s == [s[0]] + s[1..];
    }
  }

  lemma CopyOne(s: string, value: string -> string)
    requires s != "" && !StartsWith(s, THREE)
    ensures Substitute(s, THREE, value) == [s[0]] + Substitute(s[1..], THREE, value)
  {
  }

  /** Text in which no triple-brace placeholder starts is copied. */
  lemma {:induction false} CopyPrefix(s: string, n: nat, value: string -> string)
    requires n <= |s|
    requires forall i :: 0 <= i < n ==> !StartsWith(s[i..], THREE)
    ensures Substitute(s, THREE, value) == s[..n] + Substitute(s[n..], THREE, value)
    decreases n
  {
    hide Substitute, StartsWith;
    assert s[0..] == s;
    if n > 0 {
      forall i | 0 <= i < n - 1 ensures !StartsWith(s[1..][i..], THREE) {
        assert s[1..][i..] == s[i + 1..];
      }
      CopyOne(s, value);
      CopyPrefix(s[1..], n - 1, value);
      assert s[..n] == [s[0]] + s[1..][..n - 1];
      assert s[1..][n - 1..] == s[n..];
    }
  }

  lemma CopyPiece(p: Piece, rest: string, value: string -> string)
    requires match p case Hole(path) => GoodPath(path) case Literal(c) => c == '{' ==> rest != "" && rest[0] != '{'
    ensures Substitute(Print([p]) + rest, THREE, value) == Print([p]) + Substitute(rest, THREE, value)
  {
    var text := Print([p]);
    PrintOne(p);
    var s := text + rest;
    forall i | 0 <= i < |text| ensures !StartsWith(s[i..], THREE) {
      match p
      case Literal(c) =>
        assert s[i..] == [c] + rest;
        LiteralStartsNothing(c, rest, THREE);
      case Hole(path) =>
        assert s == TWO + path + "}}" + rest;
        NoTripleInHole(path, rest, i);
    }
    CopyPrefix(s, |text|, value);
    assert s[..|text|] == text && s[|text|..] == rest;
  }

  lemma SubstituteRaw(path: string, rest: string, value: string -> string)
    requires path != "" && '}' !in path
    ensures Substitute(THREE + path + "}}}" + rest, THREE, value) == value(path) + Substitute(rest, THREE, value)
  {
    var s := THREE + path + "}}}" + rest;
    var body := path + "}" + ("}}" + rest);
    assert s == THREE + body && s[3..] == body && s[..3] == THREE;
    SpanStops(path, "}}" + rest);
    assert Closing(THREE) == "}}}" by {
      assert THREE[1..] == TWO && TWO[1..] == "{" && "{"[1..] == "";
    }
    assert body[|path|..] == "}}}" + rest && body[..|path|] == path;
    assert ("}}}" + rest)[..3] == "}}}";
    assert MatchHere(s, THREE) == Some(path);
    assert s[6 + |path|..] == rest;
  }

  /** What follows an opening brace of the literal text in a well-written template. */
  lemma AfterOpeningBrace(ms: seq<Mixed>, lookup: string -> Option<string>)
    requires ms != [] && ms[0].Escaped? && ms[0].piece.Literal?
    ensures PrintMixed(ms) != "" && PrintMixed(ms)[0] == ms[0].piece.c
    ensures Unraw(ms, lookup) != [] && Unraw(ms, lookup)[0] == ms[0].piece
  {
    PrintOne(ms[0].piece);
  }

  /** The first pass, for any values: it replaces exactly the raw placeholders and copies everything else. */
  lemma {:induction false} FirstPassUnraws(ms: seq<Mixed>, lookup: string -> Option<string>)
    requires WellWrittenMixed(ms)
    ensures Substitute(PrintMixed(ms), THREE, path => RawValue(lookup(path))) == Print(Unraw(ms, lookup))
    ensures Expand(Unraw(ms, lookup), lookup) == ExpandMixed(ms, lookup)
  {
    if ms != [] {
      hide Substitute, StartsWith;
      var value := path => RawValue(lookup(path));
      var rest := PrintMixed(ms[1..]);
      var tail := Unraw(ms[1..], lookup);
      WellWrittenMixedTail(ms);
      FirstPassUnraws(ms[1..], lookup);
      match ms[0]
      case Escaped(p) =>
        if p == Literal('{') {
          AfterOpeningBrace(ms[1..], lookup);
        }
        CopyPiece(p, rest, value);
        PrintConcat([p], tail);
        ExpandConcat([p], tail, lookup);
      case Raw(path) =>
        var text := RawValue(lookup(path));
        SubstituteRaw(path, rest, value);
        LiteralText(text, lookup);
        PrintConcat(Literals(text), tail);
        ExpandConcat(Literals(text), tail, lookup);
    } else {
      assert Substitute("", THREE, path => RawValue(lookup(path))) == "";
    }
  }

  /** No two opening braces in a row, and none at the end. */
  predicate Quiet(s: string) {
    forall i :: 0 <= i < |s| && s[i] == '{' ==> i + 1 < |s| && s[i + 1] != '{'
  }

  lemma QuietTail(s: string)
    requires Quiet(s) && s != ""
    ensures Quiet(s[1..])
    ensures s[0] == '{' ==> |s| > 1 && s[1] != '{'
  {
    assert forall i :: 0 <= i < |s| - 1 ==> s[1..][i] == s[i + 1];
  }

  lemma {:induction false} LiteralsWellWritten(s: string, tail: seq<Piece>)
    requires Quiet(s) && WellWritten(tail)
    ensures WellWritten(Literals(s) + tail)
  {
    if s == "" {
      assert Literals(s) + tail == tail;
    } else {
      var rest := Literals(s[1..]) + tail;
      QuietTail(s);
      LiteralsWellWritten(s[1..], tail);
      assert s[0] == '{' ==> rest[0] == Literal(s[1]);
      hide Quiet, WellWritten;
      assert Literals(s) + tail == [Literal(s[0])] + rest;
      assert ([Literal(s[0])] + rest)[1..] == rest;
      WellWrittenTail([Literal(s[0])] + rest);
    }
  }

  lemma {:induction false} UnrawWellWritten(ms: seq<Mixed>, lookup: string -> Option<string>)
    requires WellWrittenMixed(ms)
    requires forall m :: m in ms && m.Raw? ==> Quiet(RawValue(lookup(m.path)))
    ensures WellWritten(Unraw(ms, lookup))
  {
    if ms != [] {
      var tail := Unraw(ms[1..], lookup);
      WellWrittenMixedTail(ms);
      UnrawWellWritten(ms[1..], lookup);
      match ms[0]
      case Escaped(p) =>
        if p == Literal('{') {
          AfterOpeningBrace(ms[1..], lookup);
        }
        var pieces := [p] + tail;
        assert pieces[1..] == tail && PieceOk(pieces, 0);
        WellWrittenTail(pieces);
      case Raw(path) =>
        assert ms[0] in ms;
        LiteralsWellWritten(RawValue(lookup(path)), tail);
    }
  }

  /**
   With raw placeholders too: raw values as they are, all others escaped once, as long as no raw
   value has two opening braces in a row or one at its end.
   */
  lemma RenderOfMixed(ms: seq<Mixed>, lookup: string -> Option<string>)
    requires WellWrittenMixed(ms)
    requires forall m :: m in ms && m.Raw? ==> Quiet(RawValue(lookup(m.path)))
    ensures RenderTemplate(PrintMixed(ms), lookup) == ExpandMixed(ms, lookup)
  {
    FirstPassUnraws(ms, lookup);
    UnrawWellWritten(ms, lookup);
    PiecesOfPrint(Unraw(ms, lookup));
    SecondPassExpandsPieces(Print(Unraw(ms, lookup)), lookup);
  }

  // ---------------------------------------------------------------------------
  // When a raw value comes out verbatim
  // ---------------------------------------------------------------------------

  /** A raw placeholder renders as its value cut into pieces and expanded. */
  lemma RenderOfRaw(path: string, v: string, lookup: string -> Option<string>)
    requires path != "" && '}' !in path && lookup(path) == Some(v)
    ensures RenderTemplate(THREE + path + "}}}", lookup) == Expand(Pieces(v), lookup)
  {
    var value := path => RawValue(lookup(path));
    SubstituteRaw(path, "", value);
    assert THREE + path + "}}}" + "" == THREE + path + "}}}";
    assert Substitute("", THREE, value) == "" && v + "" == v;
    SecondPassExpandsPieces(v, lookup);
  }

  lemma {:induction false} EscapeNotShorter(s: string)
    ensures |EscapeHtml(s)| >= |s|
  {
    EscapeIsPerCharacter(s);
    if s != "" {
      EscapeIsPerCharacter(s[1..]);
      EscapeNotShorter(s[1..]);
    }
  }

  ghost predicate HasHole(pieces: seq<Piece>) {
    exists p :: p in pieces && p.Hole?
  }

  lemma HasHoleTail(pieces: seq<Piece>)
    requires pieces != []
    ensures HasHole(pieces) <==> pieces[0].Hole? || HasHole(pieces[1..])
  {
    assert pieces == [pieces[0]] + pieces[1..];
    assert pieces[0] in pieces;
    assert forall p :: p in pieces <==> p == pieces[0] || p in pieces[1..];
  }

  /** Text without placeholders expands to itself; placeholders without values make it shorter. */
  lemma {:induction false} ExpandWithoutValues(pieces: seq<Piece>, lookup: string -> Option<string>)
    requires forall p :: p in pieces && p.Hole? ==> lookup(p.path).None?
    ensures !HasHole(pieces) ==> Expand(pieces, lookup) == Print(pieces)
    ensures |Expand(pieces, lookup)| <= |Print(pieces)|
    ensures HasHole(pieces) ==> |Expand(pieces, lookup)| < |Print(pieces)|
  {
    if pieces != [] {
      HasHoleTail(pieces);
      assert pieces[0] in pieces && forall p :: p in pieces[1..] ==> p in pieces;
      ExpandWithoutValues(pieces[1..], lookup);
    }
  }

  /** When every placeholder has a non-empty value, every piece but the i-th adds at least one character to it. */
  lemma {:induction false} ExpandWithValues(pieces: seq<Piece>, i: nat, lookup: string -> Option<string>)
    requires forall p :: p in pieces && p.Hole? ==> |EscapedValue(lookup(p.path))| >= 1
    ensures |Expand(pieces, lookup)| >= |pieces|
    ensures i < |pieces| && pieces[i].Hole? ==>
              |Expand(pieces, lookup)| >= |pieces| - 1 + |EscapedValue(lookup(pieces[i].path))|
  {
    if pieces != [] {
      assert pieces[0] in pieces && forall p :: p in pieces[1..] ==> p in pieces;
      ExpandWithValues(pieces[1..], if i > 0 then i - 1 else 0, lookup);
    }
  }

  /** The raw placeholder of `path` renders verbatim whatever else the data holds. */
  ghost predicate AlwaysVerbatim(path: string, v: string) {
    forall lookup: string -> Option<string> ::
      lookup(path) == Some(v) ==> RenderTemplate(THREE + path + "}}}", lookup) == v
  }

  lemma OnlyItself(path: string, v: string)
    requires path != "" && '}' !in path
    requires v == TWO + path + "}}" && EscapeHtml(v) == v
    ensures AlwaysVerbatim(path, v)
  {
    MatchHole(path, "");
    assert TWO + path + "}}" + "" == v && v[4 + |path|..] == "";
    assert Pieces(v) == [Hole(path)] + Pieces("");
    assert Pieces(v) == [Hole(path)];
    forall lookup: string -> Option<string> | lookup(path) == Some(v)
      ensures RenderTemplate(THREE + path + "}}}", lookup) == v
    {
      RenderOfRaw(path, v, lookup);
      assert [Hole(path)][1..] == [];
      assert Expand([Hole(path)], lookup) == EscapeHtml(v) + "";
    }
  }

  lemma NoHolesIsVerbatim(path: string, v: string)
    requires path != "" && '}' !in path && !HasHole(Pieces(v))
    ensures AlwaysVerbatim(path, v)
  {
    forall lookup: string -> Option<string> | lookup(path) == Some(v)
      ensures RenderTemplate(THREE + path + "}}}", lookup) == v
    {
      RenderOfRaw(path, v, lookup);
      SecondPassExpandsPieces(v, lookup);
      ExpandWithoutValues(Pieces(v), lookup);
    }
  }

  /** A hole of another path, left without a value, makes the output shorter. */
  lemma OtherHoleIsNotVerbatim(path: string, v: string)
    requires path != "" && '}' !in path && HasHole(Pieces(v)) && Hole(path) !in Pieces(v)
    ensures !AlwaysVerbatim(path, v)
  {
    var lookup := x => if x == path then Some(v) else None;
    RenderOfRaw(path, v, lookup);
    SecondPassExpandsPieces(v, lookup);
    ExpandWithoutValues(Pieces(v), lookup);
    assert lookup(path) == Some(v) && RenderTemplate(THREE + path + "}}}", lookup) != v;
  }

  /** A value that holds its own placeholder and anything else makes the output longer. */
  lemma LongerThanItself(path: string, v: string, pieces: seq<Piece>, lookup: string -> Option<string>)
    requires Hole(path) in pieces && Print(pieces) == v && v != ""
    requires lookup(path) == Some(v) && forall x :: x != path ==> lookup(x) == Some("x")
    requires v != TWO + path + "}}" || EscapeHtml(v) != v
    ensures Expand(pieces, lookup) != v
  {
    hide EscapeHtml;
    EscapeNotShorter(v);
    EscapeNotShorter("x");
    if |pieces| == 1 {
      assert pieces == [Hole(path)];
      PrintOne(Hole(path));
      assert [Hole(path)][1..] == [];
      assert Expand(pieces, lookup) == EscapeHtml(v) + "" == EscapeHtml(v);
    } else {
      hide Expand, Print;
      var i :| 0 <= i < |pieces| && pieces[i] == Hole(path);
      ExpandWithValues(pieces, i, lookup);
    }
  }

  lemma OwnHoleIsNotVerbatim(path: string, v: string)
    requires path != "" && '}' !in path && Hole(path) in Pieces(v)
    requires v != TWO + path + "}}" || EscapeHtml(v) != v
    ensures !AlwaysVerbatim(path, v)
  {
    hide EscapeHtml, Expand, Print, RenderTemplate, Substitute;
    var lookup := x => if x == path then Some(v) else Some("x");
    assert v != "";
    hide Pieces;
    RenderOfRaw(path, v, lookup);
    SecondPassExpandsPieces(v, lookup);
    LongerThanItself(path, v, Pieces(v), lookup);
    assert lookup(path) == Some(v) && RenderTemplate(THREE + path + "}}}", lookup) != v;
  }

  /**
   A raw value comes out verbatim whatever else the data holds if and only if it contains no
   double-brace placeholder, or is nothing but its own one, unchanged by escaping.
   */
  lemma RawIsVerbatimExactlyWhen(path: string, v: string)
    requires path != "" && '}' !in path
    ensures AlwaysVerbatim(path, v) <==> !HasHole(Pieces(v)) || (v == TWO + path + "}}" && EscapeHtml(v) == v)
  {
    hide AlwaysVerbatim, EscapeHtml;
    if v == TWO + path + "}}" && EscapeHtml(v) == v {
      OnlyItself(path, v);
    } else if !HasHole(Pieces(v)) {
      NoHolesIsVerbatim(path, v);
    } else if Hole(path) in Pieces(v) {
      OwnHoleIsNotVerbatim(path, v);
    } else {
      OtherHoleIsNotVerbatim(path, v);
    }
  }

  /** The condition on raw values matters: the second pass does scan them for placeholders. */
  lemma RawValuesAreScannedAgain(secret: string) returns (template: string, lookup: string -> Option<string>)
    ensures lookup("a") == Some("{{b}}") && lookup("b") == Some(secret)
    ensures template == "{{{a}}}" && RenderTemplate(template, lookup) == EscapeHtml(secret)
  {
    template := "{{{a}}}";
    lookup := path => if path == "a" then Some("{{b}}") else if path == "b" then Some(secret) else None;
    FirstPassOfRaw(path => RawValue(lookup(path)));
    SecondPassOfHole(lookup);
  }

  lemma FirstPassOfRaw(value: string -> string)
    ensures Substitute("{{{a}}}", THREE, value) == value("a")
  {
    SubstituteRaw("a", "", value);
    assert THREE + "a" + "}}}" + "" == "{{{a}}}";
    assert Substitute("", THREE, value) == "";
    assert value("a") + "" == value("a");
  }

  lemma SecondPassOfHole(lookup: string -> Option<string>)
    ensures Substitute("{{b}}", TWO, path => EscapedValue(lookup(path))) == EscapedValue(lookup("b"))
  {
    var holes := [Hole("b")];
    assert holes[1..] == [] && Print(holes) == TWO + "b" + "}}" + "" == "{{b}}";
    PiecesOfPrint(holes);
    SecondPassExpandsPieces("{{b}}", lookup);
    assert Expand(holes, lookup) == EscapedValue(lookup("b")) + "";
  }
}
