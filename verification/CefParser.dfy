// A reader for CEF lines, independent of the printer, and its exact inverse.
// A backslash escapes a backslash, an equals sign or a pipe, anywhere in the line, and everything else
// stands for itself. This is stricter than "Implementing ArcSight Common Event Format", section "Character
// Encoding", which asks for escaped pipes in the header only and for escaped equals signs in the extension
// only, and which wants newlines encoded.
module CefParser {
  import opened Basics
  import opened Text

  datatype Token = Lit(c: char) | Pipe | Equals

  predicate Special(c: char) {
    c == '\\' || c == '=' || c == '|'
  }

  /** No character that the format gives a meaning to. */
  predicate Clean(s: string) {
    forall i :: 0 <= i < |s| ==> !Special(s[i])
  }

  function Lex(s: string): Option<seq<Token>> {
    if s == "" then Some([])
    else if s[0] == '\\' then
      if |s| >= 2 && Special(s[1]) then Prepend(Lit(s[1]), Lex(s[2..])) else None
    else
      Prepend(if s[0] == '|' then Pipe else if s[0] == '=' then Equals else Lit(s[0]), Lex(s[1..]))
  }

  function Prepend<T>(x: T, xs: Option<seq<T>>): Option<seq<T>> {
    if xs.None? then None else Some([x] + xs.value)
  }

  function Lits(s: string): seq<Token> {
    seq(|s|, i requires 0 <= i < |s| => Lit(s[i]))
  }

  /** Header fields are runs of literals, each ended by a pipe. */
  function ReadField(ts: seq<Token>): Option<(string, seq<Token>)> {
    if ts == [] || ts[0] == Equals then None
    else if ts[0] == Pipe then Some(("", ts[1..]))
    else
      match ReadField(ts[1..])
      case None => None
      case Some(r) => Some(([ts[0].c] + r.0, r.1))
  }

  function ReadFields(ts: seq<Token>, n: nat): Option<(seq<string>, seq<Token>)>
    decreases n
  {
    if n == 0 then Some(([], ts))
    else
      match ReadField(ts)
      case None => None
      case Some(first) =>
        match ReadFields(first.1, n - 1)
        case None => None
        case Some(rest) => Some(([first.0] + rest.0, rest.1))
  }

  /** The extension, cut at its unescaped equals signs. */
  function Cut(ts: seq<Token>): Option<seq<string>> {
    if ts == [] then Some([""])
    else
      match Cut(ts[1..])
      case None => None
      case Some(rest) =>
        if rest == [] || ts[0] == Pipe then None
        else if ts[0] == Equals then Some([""] + rest)
        else Some([[ts[0].c] + rest[0]] + rest[1..])
  }

  type Pair = (string, string)

  /** Between two equals signs stand a value, a space and the next key. */
  function PairUp(key: string, segments: seq<string>): Option<seq<Pair>>
    decreases |segments|
  {
    if segments == [] then None
    else if |segments| == 1 then Some([(key, segments[0])])
    else
      var i := LastIndex(segments[0], ' ');
      if i < 0 then None
      else Prepend((key, segments[0][..i]), PairUp(segments[0][i + 1..], segments[1..]))
  }

  /** The seven header fields and the extension pairs of a line of tokens. */
  function ParseTokens(ts: seq<Token>): Option<(seq<string>, seq<Pair>)> {
    match ReadFields(ts, 7)
    case None => None
    case Some(head) =>
      match Cut(head.1)
      case None => None
      case Some(segments) =>
        if segments == [] || ' ' in segments[0] then None
        else
          match PairUp(segments[0], segments[1..])
          case None => None
          case Some(pairs) => Some((head.0, pairs))
  }

  function Parse(line: string): Option<(seq<string>, seq<Pair>)> {
    match Lex(line)
    case None => None
    case Some(ts) => ParseTokens(ts)
  }

  // ---------- rendering ----------

  function EscapeChar(c: char): string {
    if Special(c) then ['\\', c] else [c]
  }

  function Escape(s: string): string {
    if s == "" then "" else EscapeChar(s[0]) + Escape(s[1..])
  }

  function TokenText(t: Token): string {
    match t
    case Lit(c) => EscapeChar(c)
    case Pipe => "|"
    case Equals => "="
  }

  function Unlex(ts: seq<Token>): string {
    if ts == [] then "" else TokenText(ts[0]) + Unlex(ts[1..])
  }

  function FieldTokens(fields: seq<string>): seq<Token> {
    if fields == [] then [] else Lits(fields[0]) + [Pipe] + FieldTokens(fields[1..])
  }

  function SegmentTokens(segments: seq<string>): seq<Token>
    requires segments != []
  {
    if |segments| == 1 then Lits(segments[0])
    else Lits(segments[0]) + [Equals] + SegmentTokens(segments[1..])
  }

  function Segments(pairs: seq<Pair>): seq<string>
    requires pairs != []
  {
    if |pairs| == 1 then [pairs[0].1]
    else [pairs[0].1 + " " + pairs[1].0] + Segments(pairs[1..])
  }

  function LineTokens(fields: seq<string>, pairs: seq<Pair>): seq<Token>
    requires pairs != []
  {
    FieldTokens(fields) + SegmentTokens([pairs[0].0] + Segments(pairs))
  }

  predicate KeysHaveNoSpace(pairs: seq<Pair>) {
    forall i :: 0 <= i < |pairs| ==> ' ' !in pairs[i].0
  }

  // ---------- each layer of the reader inverts its layer of the renderer ----------

  lemma {:induction false} LexUnlex(ts: seq<Token>)
    ensures Lex(Unlex(ts)) == Some(ts)
  {
    if ts != [] {
      LexUnlex(ts[1..]);
      var head, rest := TokenText(ts[0]), Unlex(ts[1..]);
      assert Unlex(ts) == head + rest;
      LexToken(ts[0], rest);
      hide Lex, Unlex, TokenText;
      assert ts == [ts[0]] + ts[1..];
    }
  }

  lemma {:induction false} LexToken(t: Token, rest: string)
    ensures Lex(TokenText(t) + rest) == Prepend(t, Lex(rest))
  {
    var head := TokenText(t);
    var s := head + rest;
    assert s[|head|..] == rest && s[0] == head[0] && (|head| == 2 ==> s[1] == head[1]);
  }

  lemma {:induction false} UnlexLex(s: string)
    requires Lex(s).Some?
    ensures Unlex(Lex(s).value) == s
  {
    if s != "" {
      var n := if s[0] == '\\' then 2 else 1;
      UnlexLex(s[n..]);
      var ts := Lex(s).value;
      assert ts[1..] == Lex(s[n..]).value;
      assert TokenText(ts[0]) == s[..n];
      hide Lex, TokenText;
      assert Unlex(ts) == TokenText(ts[0]) + Unlex(ts[1..]);
      assert s == s[..n] + s[n..];
    }
  }

  lemma {:induction false} ReadFieldOf(s: string, rest: seq<Token>)
    ensures ReadField(Lits(s) + [Pipe] + rest) == Some((s, rest))
  {
    var ts := Lits(s) + [Pipe] + rest;
    if s == "" {
      assert ts[1..] == rest;
    } else {
      ReadFieldOf(s[1..], rest);
      assert ts[0] == Lit(s[0]) && ts[1..] == Lits(s[1..]) + [Pipe] + rest;
      assert [s[0]] + s[1..] == s;
    }
  }

  lemma {:induction false} FieldRead(ts: seq<Token>)
    requires ReadField(ts).Some?
    ensures var r := ReadField(ts).value; ts == Lits(r.0) + [Pipe] + r.1
  {
    if ts[0] != Pipe {
      FieldRead(ts[1..]);
      var r := ReadField(ts).value;
      assert Lits(r.0) == [ts[0]] + Lits(r.0[1..]);
    }
  }

  lemma {:induction false} ReadFieldsOf(fields: seq<string>, rest: seq<Token>)
    ensures ReadFields(FieldTokens(fields) + rest, |fields|) == Some((fields, rest))
  {
    var ts := FieldTokens(fields) + rest;
    if fields == [] {
      assert ts == rest;
    } else {
      ReadFieldOf(fields[0], FieldTokens(fields[1..]) + rest);
      assert ts == Lits(fields[0]) + [Pipe] + (FieldTokens(fields[1..]) + rest);
      ReadFieldsOf(fields[1..], rest);
      assert [fields[0]] + fields[1..] == fields;
    }
  }

  lemma {:induction false} FieldsRead(ts: seq<Token>, n: nat)
    requires ReadFields(ts, n).Some?
    ensures var r := ReadFields(ts, n).value; |r.0| == n && ts == FieldTokens(r.0) + r.1
    decreases n
  {
    if n > 0 {
      var first := ReadField(ts).value;
      FieldRead(ts);
      FieldsRead(first.1, n - 1);
      var r := ReadFields(ts, n).value;
      assert r.0[1..] == ReadFields(first.1, n - 1).value.0;
    }
  }

  lemma {:induction false} CutLiteral(ts: seq<Token>)
    requires ts != [] && ts[0].Lit? && Cut(ts[1..]).Some? && Cut(ts[1..]).value != []
    ensures var rest := Cut(ts[1..]).value; Cut(ts) == Some([[ts[0].c] + rest[0]] + rest[1..])
  {
  }

  lemma {:induction false} FirstAndRest<T>(x: T, xs: seq<T>)
    ensures ([x] + xs)[0] == x && ([x] + xs)[1..] == xs
  {
  }

  lemma {:induction false} CutLits(s: string, rest: seq<Token>)
    requires Cut(rest).Some? && Cut(rest).value != []
    ensures var c := Cut(rest).value; Cut(Lits(s) + rest) == Some([s + c[0]] + c[1..])
  {
    var ts := Lits(s) + rest;
    var c := Cut(rest).value;
    if s == "" {
      assert s + c[0] == c[0];
      assert ts == rest && [c[0]] + c[1..] == c;
    } else {
      CutLits(s[1..], rest);
      assert ts[1..] == Lits(s[1..]) + rest && ts[0] == Lit(s[0]);
      assert [s[0]] + (s[1..] + c[0]) == s + c[0];
      CutLiteral(ts);
      hide Cut, Lits;
      FirstAndRest(s[1..] + c[0], c[1..]);
    }
  }

  lemma {:induction false} CutOf(segments: seq<string>)
    requires segments != []
    ensures Cut(SegmentTokens(segments)) == Some(segments)
  {
    if |segments| == 1 {
      var none: seq<Token> := [];
      assert Cut(none).value[1..] == [] && segments == [segments[0]];
      CutLits(segments[0], none);
      assert [segments[0]] + [""][1..] == segments;
      assert Lits(segments[0]) + [] == Lits(segments[0]);
      assert segments[0] + "" == segments[0];
    } else {
      CutOf(segments[1..]);
      var rest := [Equals] + SegmentTokens(segments[1..]);
      assert rest[1..] == SegmentTokens(segments[1..]);
      assert Cut(rest) == Some([""] + segments[1..]);
      assert ([""] + segments[1..])[1..] == segments[1..];
      assert [segments[0]] + segments[1..] == segments;
      CutLits(segments[0], rest);
      assert segments[0] + "" == segments[0];
      assert SegmentTokens(segments) == Lits(segments[0]) + rest;
    }
  }

  lemma {:induction false} SegmentTokensCons(c: char, segments: seq<string>)
    requires segments != []
    ensures SegmentTokens([[c] + segments[0]] + segments[1..]) == [Lit(c)] + SegmentTokens(segments)
  {
    var all := [[c] + segments[0]] + segments[1..];
    assert Lits(all[0]) == [Lit(c)] + Lits(segments[0]);
    assert all[1..] == segments[1..];
  }

  lemma {:induction false} SegmentTokensNew(segments: seq<string>)
    requires segments != []
    ensures SegmentTokens([""] + segments) == [Equals] + SegmentTokens(segments)
  {
    assert ([""] + segments)[1..] == segments && Lits("") == [];
  }

  lemma {:induction false} SegmentsCut(ts: seq<Token>)
    requires Cut(ts).Some?
    ensures Cut(ts).value != [] && ts == SegmentTokens(Cut(ts).value)
  {
    if ts != [] {
      SegmentsCut(ts[1..]);
      var rest := Cut(ts[1..]).value;
      assert ts == [ts[0]] + ts[1..];
      hide SegmentTokens;
      if ts[0] == Equals {
        SegmentTokensNew(rest);
      } else {
        SegmentTokensCons(ts[0].c, rest);
      }
    }
  }

  lemma {:induction false} LastSpace(value: string, key: string)
    requires ' ' !in key
    ensures LastIndex(value + " " + key, ' ') == |value|
  {
    var s := value + " " + key;
    assert s[|value|] == ' ';
    forall j | |value| < j < |s|
      ensures s[j] != ' '
    {
      assert s[j] == key[j - |value| - 1];
    }
  }

  lemma {:induction false} PairUpStep(key: string, segments: seq<string>)
    requires |segments| > 1 && LastIndex(segments[0], ' ') >= 0
    ensures var i := LastIndex(segments[0], ' ');
      PairUp(key, segments) == Prepend((key, segments[0][..i]), PairUp(segments[0][i + 1..], segments[1..]))
  {
    hide LastIndex;
  }

  lemma {:induction false} PairUpOf(pairs: seq<Pair>)
    requires pairs != [] && KeysHaveNoSpace(pairs)
    ensures PairUp(pairs[0].0, Segments(pairs)) == Some(pairs)
  {
    if |pairs| == 1 {
      assert pairs == [(pairs[0].0, pairs[0].1)];
    } else {
      var seg, rest := pairs[0].1 + " " + pairs[1].0, Segments(pairs[1..]);
      LastSpace(pairs[0].1, pairs[1].0);
      assert seg[..|pairs[0].1|] == pairs[0].1 && seg[|pairs[0].1| + 1..] == pairs[1].0;
      PairUpOf(pairs[1..]);
      assert Segments(pairs) == [seg] + rest;
      FirstAndRest(seg, rest);
      PairUpStep(pairs[0].0, Segments(pairs));
      hide LastIndex, Segments, PairUp;
      assert [pairs[0]] + pairs[1..] == pairs;
    }
  }

  lemma {:induction false} PairsUp(key: string, segments: seq<string>)
    requires PairUp(key, segments).Some?
    ensures var pairs := PairUp(key, segments).value;
      pairs != [] && pairs[0].0 == key && segments == Segments(pairs)
    decreases |segments|
  {
    var pairs := PairUp(key, segments).value;
    if |segments| == 1 {
      assert segments == [segments[0]];
    } else {
      var i := LastIndex(segments[0], ' ');
      PairsUp(segments[0][i + 1..], segments[1..]);
      var rest := PairUp(segments[0][i + 1..], segments[1..]).value;
      assert pairs == [(key, segments[0][..i])] + rest;
      assert pairs[1..] == rest && pairs[1] == rest[0];
      assert segments[0] == segments[0][..i] + " " + segments[0][i + 1..];
      assert segments == [segments[0]] + segments[1..];
    }
  }

  lemma {:induction false} TokensParse(fields: seq<string>, pairs: seq<Pair>)
    requires |fields| == 7 && pairs != [] && KeysHaveNoSpace(pairs)
    ensures ParseTokens(LineTokens(fields, pairs)) == Some((fields, pairs))
  {
    var segments := [pairs[0].0] + Segments(pairs);
    ReadFieldsOf(fields, SegmentTokens(segments));
    CutOf(segments);
    PairUpOf(pairs);
    assert segments[1..] == Segments(pairs);
  }

  lemma {:induction false} ParsedTokens(ts: seq<Token>)
    requires ParseTokens(ts).Some?
    ensures var r := ParseTokens(ts).value; |r.0| == 7 && r.1 != [] && ts == LineTokens(r.0, r.1)
  {
    FieldsRead(ts, 7);
    var head := ReadFields(ts, 7).value;
    SegmentsCut(head.1);
    var segments := Cut(head.1).value;
    PairsUp(segments[0], segments[1..]);
    assert [segments[0]] + segments[1..] == segments;
  }

  /** Rendering then parsing recovers the header and the pairs. */
  lemma {:induction false} ParseRender(fields: seq<string>, pairs: seq<Pair>)
    requires |fields| == 7 && pairs != [] && KeysHaveNoSpace(pairs)
    ensures Parse(Unlex(LineTokens(fields, pairs))) == Some((fields, pairs))
  {
    LexUnlex(LineTokens(fields, pairs));
    TokensParse(fields, pairs);
  }

  /** Parsing loses nothing: an accepted line is the rendering of what was read from it. */
  lemma {:induction false} RenderParse(line: string)
    requires Parse(line).Some?
    ensures var r := Parse(line).value;
      |r.0| == 7 && r.1 != [] && line == Unlex(LineTokens(r.0, r.1))
  {
    UnlexLex(line);
    ParsedTokens(Lex(line).value);
  }
}
