// A reader with the escapes of "Implementing ArcSight Common Event Format", section "Character Encoding":
// in the header a backslash escapes a backslash or a pipe, in the extension a backslash or an equals sign,
// and nothing else. FormatCEF escapes all three everywhere, so it does not always meet this reader.
module CefStandard {
  import opened Basics
  import opened Events
  import opened Text
  import opened Cef
  import opened CefParser
  import opened CefProofs

  /** The delimiter that needs escaping, with n header fields still to end. */
  function Sep(n: nat): char {
    if n > 0 then '|' else '='
  }

  predicate Quoted(c: char, sep: char) {
    c == '\\' || c == sep
  }

  /** How many header fields are still to end after a token that is not a literal. */
  function Left(n: nat): nat {
    if n > 0 then n - 1 else 0
  }

  function Delimiter(n: nat): Token {
    if n > 0 then Pipe else Equals
  }

  function Scan(s: string, n: nat): Option<seq<Token>>
    decreases |s|
  {
    if s == "" then Some([])
    else if s[0] == '\\' then
      if |s| >= 2 && Quoted(s[1], Sep(n)) then Prepend(Lit(s[1]), Scan(s[2..], n)) else None
    else if s[0] == Sep(n) then Prepend(Delimiter(n), Scan(s[1..], Left(n)))
    else Prepend(Lit(s[0]), Scan(s[1..], n))
  }

  function Read(line: string): Option<(seq<string>, seq<Pair>)> {
    match Scan(line, 7)
    case None => None
    case Some(ts) => ParseTokens(ts)
  }

  // ---------- rendering ----------

  function QuoteChar(c: char, sep: char): string {
    if Quoted(c, sep) then ['\\', c] else [c]
  }

  function Quote(s: string, sep: char): string {
    if s == "" then "" else QuoteChar(s[0], sep) + Quote(s[1..], sep)
  }

  /** Pipes end header fields, equals signs cut the extension. */
  predicate Proper(ts: seq<Token>, n: nat)
    decreases |ts|
  {
    ts != [] ==> if ts[0].Lit? then Proper(ts[1..], n) else ts[0] == Delimiter(n) && Proper(ts[1..], Left(n))
  }

  function Unscan(ts: seq<Token>, n: nat): string
    decreases |ts|
  {
    if ts == [] then ""
    else if ts[0].Lit? then QuoteChar(ts[0].c, Sep(n)) + Unscan(ts[1..], n)
    else [Sep(n)] + Unscan(ts[1..], Left(n))
  }

  lemma {:induction false} ScanUnscan(ts: seq<Token>, n: nat)
    requires Proper(ts, n)
    ensures Scan(Unscan(ts, n), n) == Some(ts)
    decreases |ts|
  {
    if ts != [] {
      var m := if ts[0].Lit? then n else Left(n);
      ScanUnscan(ts[1..], m);
      var head := if ts[0].Lit? then QuoteChar(ts[0].c, Sep(n)) else [Sep(n)];
      var rest := Unscan(ts[1..], m);
      assert Unscan(ts, n) == head + rest;
      ScanToken(ts[0], n, rest);
      hide Scan, Unscan, QuoteChar;
      assert ts == [ts[0]] + ts[1..];
    }
  }

  lemma {:induction false} ScanToken(t: Token, n: nat, rest: string)
    requires t.Lit? || t == Delimiter(n)
    ensures t.Lit? ==> Scan(QuoteChar(t.c, Sep(n)) + rest, n) == Prepend(t, Scan(rest, n))
    ensures !t.Lit? ==> Scan([Sep(n)] + rest, n) == Prepend(t, Scan(rest, Left(n)))
  {
    var head := if t.Lit? then QuoteChar(t.c, Sep(n)) else [Sep(n)];
    var s := head + rest;
    assert s[|head|..] == rest && s[0] == head[0] && (|head| == 2 ==> s[1] == head[1]);
  }

  lemma {:induction false} UnscanScan(s: string, n: nat)
    requires Scan(s, n).Some?
    ensures Unscan(Scan(s, n).value, n) == s
    decreases |s|
  {
    if s != "" {
      var k := if s[0] == '\\' then 2 else 1;
      var m := if s[0] == Sep(n) then Left(n) else n;
      UnscanScan(s[k..], m);
      var ts := Scan(s, n).value;
      assert ts[1..] == Scan(s[k..], m).value;
      assert s == s[..k] + s[k..];
    }
  }

  // ---------- the text of a rendering ----------

  function QuotedFields(fields: seq<string>): seq<string> {
    seq(|fields|, i requires 0 <= i < |fields| => Quote(fields[i], '|'))
  }

  function QuotedPair(p: Pair): string {
    Quote(p.0, '=') + "=" + Quote(p.1, '=')
  }

  function QuotedPairs(pairs: seq<Pair>): seq<string> {
    seq(|pairs|, i requires 0 <= i < |pairs| => QuotedPair(pairs[i]))
  }

  lemma {:induction false} UnscanLits(s: string, rest: seq<Token>, n: nat)
    ensures Unscan(Lits(s) + rest, n) == Quote(s, Sep(n)) + Unscan(rest, n)
    ensures Proper(rest, n) ==> Proper(Lits(s) + rest, n)
  {
    var ts := Lits(s) + rest;
    if s == "" {
      assert ts == rest;
    } else {
      UnscanLits(s[1..], rest, n);
      assert ts[0] == Lit(s[0]) && ts[1..] == Lits(s[1..]) + rest;
      ConcatAssociative(QuoteChar(s[0], Sep(n)), Quote(s[1..], Sep(n)), Unscan(rest, n));
    }
  }

  lemma {:induction false} UnscanDelimiter(rest: seq<Token>, n: nat)
    ensures Unscan([Delimiter(n)] + rest, n) == [Sep(n)] + Unscan(rest, Left(n))
    ensures Proper(rest, Left(n)) ==> Proper([Delimiter(n)] + rest, n)
  {
    assert ([Delimiter(n)] + rest)[1..] == rest;
  }

  lemma {:induction false} FieldsText(fields: seq<string>, rest: seq<Token>)
    ensures Unscan(FieldTokens(fields) + rest, |fields|) == Piped(QuotedFields(fields)) + Unscan(rest, 0)
    ensures Proper(rest, 0) ==> Proper(FieldTokens(fields) + rest, |fields|)
  {
    var ts, n := FieldTokens(fields) + rest, |fields|;
    if fields == [] {
      assert ts == rest;
    } else {
      var tail := FieldTokens(fields[1..]) + rest;
      FieldsText(fields[1..], rest);
      assert ts == Lits(fields[0]) + ([Pipe] + tail);
      UnscanLits(fields[0], [Pipe] + tail, n);
      UnscanDelimiter(tail, n);
      assert QuotedFields(fields)[1..] == QuotedFields(fields[1..]);
      var q, p := Quote(fields[0], '|'), Piped(QuotedFields(fields[1..]));
      ConcatAssociative(q, "|", p + Unscan(rest, 0));
      ConcatAssociative(q + "|", p, Unscan(rest, 0));
    }
  }

  lemma {:induction false} SegmentsText(segments: seq<string>)
    requires segments != []
    ensures Proper(SegmentTokens(segments), 0)
    ensures Unscan(SegmentTokens(segments), 0) ==
      if |segments| == 1 then Quote(segments[0], '=')
      else Quote(segments[0], '=') + "=" + Unscan(SegmentTokens(segments[1..]), 0)
  {
    var s := segments[0];
    if |segments| == 1 {
      UnscanLits(s, [], 0);
      assert Lits(s) + [] == Lits(s) && Quote(s, '=') + "" == Quote(s, '=');
    } else {
      var tail := SegmentTokens(segments[1..]);
      SegmentsText(segments[1..]);
      assert SegmentTokens(segments) == Lits(s) + ([Equals] + tail);
      UnscanLits(s, [Equals] + tail, 0);
      UnscanDelimiter(tail, 0);
      ConcatAssociative(Quote(s, '='), "=", Unscan(tail, 0));
    }
  }

  lemma {:induction false} QuoteConcat(a: string, b: string, sep: char)
    ensures Quote(a + b, sep) == Quote(a, sep) + Quote(b, sep)
  {
    if a == "" {
      assert a + b == b;
    } else {
      QuoteConcat(a[1..], b, sep);
      assert (a + b)[1..] == a[1..] + b;
      ConcatAssociative(QuoteChar(a[0], sep), Quote(a[1..], sep), Quote(b, sep));
      hide QuoteChar;
    }
  }

  lemma {:induction false} QuoteSpaced(value: string)
    ensures Quote(value + " ", '=') == Quote(value, '=') + " "
  {
    QuoteConcat(value, " ", '=');
    assert Quote(" ", '=') == " " + Quote("", '=');
  }

  lemma {:induction false} PairsTextStep(pairs: seq<Pair>)
    requires |pairs| > 1
    ensures Join(QuotedPairs(pairs), " ") == QuotedPair(pairs[0]) + " " + Join(QuotedPairs(pairs[1..]), " ")
  {
    assert QuotedPairs(pairs)[1..] == QuotedPairs(pairs[1..]);
    hide QuotedPair;
  }

  /** A value with the space behind it, and the pairs that follow. */
  lemma {:induction false} PairsText(x: string, pairs: seq<Pair>)
    requires pairs != []
    ensures Unscan(SegmentTokens([x + pairs[0].0] + Segments(pairs)), 0)
            == Quote(x, '=') + Join(QuotedPairs(pairs), " ")
    decreases |pairs|
  {
    var p := pairs[0];
    var segments := [x + p.0] + Segments(pairs);
    assert segments[1..] == Segments(pairs);
    SegmentsText(segments);
    QuoteConcat(x, p.0, '=');
    var qx, key, value := Quote(x, '='), Quote(p.0, '='), Quote(p.1, '=');
    if |pairs| == 1 {
      SegmentsText(Segments(pairs));
      assert QuotedPairs(pairs) == [QuotedPair(p)];
      LastPair(qx, key, value);
    } else {
      PairsText(p.1 + " ", pairs[1..]);
      assert Segments(pairs) == [p.1 + " " + pairs[1].0] + Segments(pairs[1..]);
      QuoteSpaced(p.1);
      PairsTextStep(pairs);
      hide Quote, Unscan, SegmentTokens, Join, QuotedPairs;
      Regroup(qx, key, value, Join(QuotedPairs(pairs[1..]), " "));
    }
  }

  /** A line as the standard would have it. */
  function StandardLine(fields: seq<string>, pairs: seq<Pair>): string {
    Piped(QuotedFields(fields)) + Join(QuotedPairs(pairs), " ")
  }

  lemma {:induction false} LineText(fields: seq<string>, pairs: seq<Pair>)
    requires |fields| == 7 && pairs != []
    ensures Unscan(LineTokens(fields, pairs), 7) == StandardLine(fields, pairs)
    ensures Proper(LineTokens(fields, pairs), 7)
  {
    var segments := [pairs[0].0] + Segments(pairs);
    FieldsText(fields, SegmentTokens(segments));
    SegmentsText(segments);
    assert "" + pairs[0].0 == pairs[0].0;
    PairsText("", pairs);
    assert Quote("", '=') + Join(QuotedPairs(pairs), " ") == Join(QuotedPairs(pairs), " ");
  }

  /** This reader reads exactly the fields and pairs of the lines the standard prescribes for them. */
  lemma {:induction false} ParsesExactly(line: string, fields: seq<string>, pairs: seq<Pair>)
    requires |fields| == 7 && pairs != [] && KeysHaveNoSpace(pairs)
    ensures Read(line) == Some((fields, pairs)) <==> line == StandardLine(fields, pairs)
  {
    LineText(fields, pairs);
    TokensParse(fields, pairs);
    ScanUnscan(LineTokens(fields, pairs), 7);
    if Read(line) == Some((fields, pairs)) {
      UnscanScan(line, 7);
      ParsedTokens(Scan(line, 7).value);
    }
  }

  // ---------- where two printed texts part ----------

  /** Two lines that have these texts in one place, with the delimiter behind, can agree only if the texts do. */
  ghost predicate Tight(text: string, standard: string, d: char) {
    forall x: string, y: string :: text + [d] + x == standard + [d] + y ==> text == standard
  }

  function Backslashes(m: nat): string {
    seq(m, i => '\\')
  }

  predicate QuoteFree(s: string, sep: char) {
    forall i :: 0 <= i < |s| ==> !Quoted(s[i], sep)
  }

  lemma {:induction false} QuoteFreeIs(s: string, sep: char)
    ensures QuoteFree(s, sep) <==> Quote(s, sep) == s
    ensures |Quote(s, sep)| >= |s|
  {
    if s != "" {
      QuoteFreeIs(s[1..], sep);
      assert s == [s[0]] + s[1..];
      assert forall i :: 0 <= i < |s[1..]| ==> s[1..][i] == s[i + 1];
    }
  }

  lemma {:induction false} BackslashFirst(m: nat, t: string)
    requires m > 0
    ensures Backslashes(m) + t == ['\\'] + (Backslashes(m - 1) + t)
  {
  }

  lemma {:induction false} BackslashMore(m: nat, t: string)
    ensures Backslashes(m) + (['\\', '\\'] + t) == Backslashes(m + 2) + t
    ensures Backslashes(0) + t == t
  {
  }

  lemma {:induction false} QuoteStep(s: string, sep: char, t: string)
    requires s != ""
    ensures Quote(s, sep) + t == QuoteChar(s[0], sep) + (Quote(s[1..], sep) + t)
    ensures s + t == [s[0]] + (s[1..] + t)
  {
    ConcatAssociative(QuoteChar(s[0], sep), Quote(s[1..], sep), t);
    ConcatAssociative([s[0]], s[1..], t);
    assert s == [s[0]] + s[1..];
  }

  /** With backslashes owed, raw text falls ever further behind. */
  lemma {:induction false} StaysBehind(s: string, sep: char, d: char, m: nat, x: string, y: string)
    requires d != '\\' && m > 0
    ensures s + ([d] + x) != Backslashes(m) + (Quote(s, sep) + ([d] + y))
    decreases |s|
  {
    var t := Quote(s, sep) + ([d] + y);
    BackslashFirst(m, t);
    if s == "" {
      assert s + ([d] + x) == [d] + x;
      ConsEqual(d, x, '\\', Backslashes(m - 1) + t);
    } else {
      QuoteStep(s, sep, [d] + x);
      QuoteStep(s, sep, [d] + y);
      var rest := s[1..] + ([d] + x);
      hide Quote, Backslashes;
      ConsEqual(s[0], rest, '\\', Backslashes(m - 1) + t);
      if s[0] == '\\' {
        BackslashMore(m - 1, Quote(s[1..], sep) + ([d] + y));
        StaysBehind(s[1..], sep, d, m + 1, x, y);
      }
    }
  }

  /** Raw text meets quoted text again only if nothing needed quoting. */
  lemma {:induction false} RawMeets(s: string, sep: char, d: char, x: string, y: string)
    requires d != '\\' && sep != '\\' && s + ([d] + x) == Quote(s, sep) + ([d] + y)
    ensures Quote(s, sep) == s
    decreases |s|
  {
    if s != "" {
      QuoteStep(s, sep, [d] + x);
      QuoteStep(s, sep, [d] + y);
      var rest, q := s[1..] + ([d] + x), Quote(s[1..], sep) + ([d] + y);
      if Quoted(s[0], sep) {
        assert ['\\', s[0]] + q == ['\\'] + ([s[0]] + q);
        ConsEqual(s[0], rest, '\\', [s[0]] + q);
        BackslashFirst(1, q);
        assert Backslashes(0) + q == q;
        StaysBehind(s[1..], sep, d, 1, x, y);
      } else {
        ConsEqual(s[0], rest, s[0], q);
        RawMeets(s[1..], sep, d, x, y);
        assert s == [s[0]] + s[1..];
      }
    }
  }

  /** Over-escaped text meets quoted text again only if it is the same. */
  lemma {:induction false} EscapedMeets(s: string, sep: char, d: char, x: string, y: string)
    requires (sep == '|' || sep == '=') && Escape(s) + ([d] + x) == Quote(s, sep) + ([d] + y)
    ensures Escape(s) == Quote(s, sep)
    decreases |s|
  {
    if s != "" {
      QuoteStep(s, sep, [d] + y);
      EscapeStep(s, [d] + x);
      var e, q := Escape(s[1..]) + ([d] + x), Quote(s[1..], sep) + ([d] + y);
      if Quoted(s[0], sep) {
        assert ['\\', s[0]] + q == ['\\'] + ([s[0]] + q) && ['\\', s[0]] + e == ['\\'] + ([s[0]] + e);
        ConsEqual('\\', [s[0]] + e, '\\', [s[0]] + q);
        ConsEqual(s[0], e, s[0], q);
      } else if Special(s[0]) {
        assert ['\\', s[0]] + e == ['\\'] + ([s[0]] + e);
        ConsEqual('\\', [s[0]] + e, s[0], q);
      } else {
        ConsEqual(s[0], e, s[0], q);
      }
      hide Escape, Quote;
      EscapedMeets(s[1..], sep, d, x, y);
      EscapeStep(s, "");
      QuoteStep(s, sep, "");
    }
  }

  lemma {:induction false} EscapeStep(s: string, t: string)
    requires s != ""
    ensures Escape(s) + t == EscapeChar(s[0]) + (Escape(s[1..]) + t)
  {
    ConcatAssociative(EscapeChar(s[0]), Escape(s[1..]), t);
  }

  // ---------- field by field ----------

  lemma {:induction false} StripPrefix(p: string, a: string, b: string, d: char, x: string, y: string)
    requires p + a + [d] + x == p + b + [d] + y
    ensures a + ([d] + x) == b + ([d] + y)
  {
    var u, v := a + ([d] + x), b + ([d] + y);
    assert p + a + [d] + x == p + u && p + b + [d] + y == p + v;
    assert (p + u)[|p|..] == u && (p + v)[|p|..] == v;
  }

  lemma {:induction false} RawTight(p: string, s: string, sep: char, d: char)
    requires d != '\\' && sep != '\\'
    ensures Tight(p + s, p + Quote(s, sep), d)
  {
    forall x: string, y: string | p + s + [d] + x == p + Quote(s, sep) + [d] + y
      ensures p + s == p + Quote(s, sep)
    {
      StripPrefix(p, s, Quote(s, sep), d, x, y);
      RawMeets(s, sep, d, x, y);
    }
  }

  lemma {:induction false} EscapedTight(p: string, s: string, sep: char, d: char)
    requires sep == '|' || sep == '='
    ensures Tight(p + Escape(s), p + Quote(s, sep), d)
  {
    forall x: string, y: string | p + Escape(s) + [d] + x == p + Quote(s, sep) + [d] + y
      ensures p + Escape(s) == p + Quote(s, sep)
    {
      StripPrefix(p, Escape(s), Quote(s, sep), d, x, y);
      EscapedMeets(s, sep, d, x, y);
    }
  }

  lemma {:induction false} TightUse(f: string, g: string, d: char, x: string, y: string)
    requires Tight(f, g, d) && f + [d] + x == g + [d] + y
    ensures f == g && x == y
  {
    assert (f + [d] + x)[|f| + 1..] == x && (g + [d] + y)[|g| + 1..] == y;
  }

  lemma {:induction false} PipedSame(fs: seq<string>, gs: seq<string>, x: string, y: string)
    requires |fs| == |gs| && forall i :: 0 <= i < |fs| ==> Tight(fs[i], gs[i], '|')
    requires Piped(fs) + x == Piped(gs) + y
    ensures fs == gs && x == y
  {
    hide Tight;
    if fs != [] {
      var s, t := Piped(fs[1..]) + x, Piped(gs[1..]) + y;
      ConcatAssociative(fs[0] + "|", Piped(fs[1..]), x);
      ConcatAssociative(gs[0] + "|", Piped(gs[1..]), y);
      TightUse(fs[0], gs[0], '|', s, t);
      PipedSame(fs[1..], gs[1..], x, y);
      assert fs == [fs[0]] + fs[1..] && gs == [gs[0]] + gs[1..];
    } else {
      assert Piped(fs) + x == x && Piped(gs) + y == y;
    }
  }

  lemma {:induction false} JoinSame(fs: seq<string>, gs: seq<string>)
    requires |fs| == |gs| && forall i :: 0 <= i < |fs| ==> Tight(fs[i], gs[i], ' ')
    requires Join(fs, " ") + " " == Join(gs, " ") + " "
    ensures fs == gs
  {
    hide Tight;
    if |fs| == 1 {
      assert fs[0] + [' '] + "" == gs[0] + [' '] + "";
      TightUse(fs[0], gs[0], ' ', "", "");
    } else if |fs| > 1 {
      var s, t := Join(fs[1..], " ") + " ", Join(gs[1..], " ") + " ";
      ConcatAssociative(fs[0] + " ", Join(fs[1..], " "), " ");
      ConcatAssociative(gs[0] + " ", Join(gs[1..], " "), " ");
      TightUse(fs[0], gs[0], ' ', s, t);
      JoinSame(fs[1..], gs[1..]);
      assert fs == [fs[0]] + fs[1..] && gs == [gs[0]] + gs[1..];
    }
  }

  lemma {:induction false} LinesSame(hs: seq<string>, gs: seq<string>, es: seq<string>, qs: seq<string>)
    requires |hs| == |gs| && forall i :: 0 <= i < |hs| ==> Tight(hs[i], gs[i], '|')
    requires |es| == |qs| && forall i :: 0 <= i < |es| ==> Tight(es[i], qs[i], ' ')
    ensures Piped(hs) + Join(es, " ") == Piped(gs) + Join(qs, " ") <==> hs == gs && es == qs
  {
    hide Tight, Piped, Join;
    if Piped(hs) + Join(es, " ") == Piped(gs) + Join(qs, " ") {
      PipedSame(hs, gs, Join(es, " "), Join(qs, " "));
      JoinSame(es, qs);
    }
  }

  // ---------- what FormatCEF prints, against the standard ----------

  lemma {:induction false} KeysQuoteFree()
    ensures QuoteFree("src", '=') && QuoteFree("spt", '=') && QuoteFree("dpt", '=') && QuoteFree("app", '=')
    ensures QuoteFree("act", '=') && QuoteFree("rt", '=') && QuoteFree("cs1", '=') && QuoteFree("cs1Label", '=')
    ensures QuoteFree("cs2", '=') && QuoteFree("cs2Label", '=') && QuoteFree("cn1", '=') && QuoteFree("cn1Label", '=')
    ensures QuoteFree("suser", '=') && QuoteFree("msg", '=')
  {
  }

  lemma {:induction false} PairKeysQuoteFree(ev: Event)
    ensures forall i :: 0 <= i < |Pairs(ev)| ==> QuoteFree(Pairs(ev)[i].0, '=')
  {
    KeysQuoteFree();
    hide Itoa, Millis, TechniqueID, TechniqueName, QuoteFree;
  }

  /** Escaping everywhere is what the standard asks for unless the other section's delimiter occurs. */
  lemma {:induction false} EscapeIsQuote(s: string, sep: char, other: char)
    requires (sep == '|' && other == '=') || (sep == '=' && other == '|')
    ensures Escape(s) == Quote(s, sep) <==> other !in s
    ensures |Quote(s, sep)| <= |Escape(s)|
  {
    if s != "" {
      EscapeIsQuote(s[1..], sep, other);
      EscapeStep(s, "");
      QuoteStep(s, sep, "");
      var e, q := Escape(s[1..]), Quote(s[1..], sep);
      assert s == [s[0]] + s[1..];
      assert Escape(s) == EscapeChar(s[0]) + e && Quote(s, sep) == QuoteChar(s[0], sep) + q;
      if s[0] != other {
        var c := EscapeChar(s[0]);
        assert c == QuoteChar(s[0], sep);
        assert (c + e)[|c|..] == e && (c + q)[|c|..] == q;
      }
    }
  }

  /** The pair is printed as the standard asks. */
  predicate PairStandard(p: Pair, raw: bool) {
    if raw then QuoteFree(p.1, '=') else '|' !in p.1
  }

  lemma {:induction false} PairPrinted(p: Pair, raw: bool)
    requires QuoteFree(p.0, '=')
    ensures Tight(PrintedPair(p, raw), QuotedPair(p), ' ')
    ensures PrintedPair(p, raw) == QuotedPair(p) <==> PairStandard(p, raw)
  {
    QuoteFreeIs(p.0, '=');
    QuoteFreeIs(p.1, '=');
    EscapeIsQuote(p.1, '=', '|');
    var key := p.0 + "=";
    hide Quote, Escape, QuoteFree, Tight;
    if raw {
      RawTight(key, p.1, '=', ' ');
    } else {
      EscapedTight(key, p.1, '=', ' ');
    }
    var v := if raw then p.1 else Escape(p.1);
    assert (key + v)[|key|..] == v && (key + Quote(p.1, '='))[|key|..] == Quote(p.1, '=');
  }

  lemma {:induction false} ExtensionsStandard(ev: Event)
    ensures var es, ps := Extensions(ev), Pairs(ev);
      && |es| == |QuotedPairs(ps)| && (forall i :: 0 <= i < |es| ==> Tight(es[i], QuotedPairs(ps)[i], ' '))
      && (es == QuotedPairs(ps) <==> forall i :: 0 <= i < |ps| ==> PairStandard(ps[i], RawAt(i)))
  {
    PairsPrinted(ev);
    PairKeysQuoteFree(ev);
    var es, ps := Extensions(ev), Pairs(ev);
    var qs := QuotedPairs(ps);
    hide Extensions, Pairs, Tight, QuotedPair, PrintedPair, PairStandard, RawAt, QuoteFree;
    forall i | 0 <= i < |ps|
      ensures Tight(es[i], qs[i], ' ') && (es[i] == qs[i] <==> PairStandard(ps[i], RawAt(i)))
    {
      PairPrinted(ps[i], RawAt(i));
    }
  }

  lemma {:induction false} DigitsQuoteFree(n: nat, sep: char)
    requires sep == '=' || sep == '|'
    ensures QuoteFree(NatDigits(n), sep)
  {
    if n >= 10 {
      DigitsQuoteFree(n / 10, sep);
    }
  }

  lemma {:induction false} NumbersQuoteFree(n: int, sep: char)
    requires sep == '=' || sep == '|'
    ensures QuoteFree(Itoa(n), sep)
  {
    DigitsQuoteFree(if n < 0 then -n else n, sep);
  }

  lemma {:induction false} HeaderConstants()
    ensures QuoteFree("CEF:0", '|') && QuoteFree("Haiagari", '|') && QuoteFree("Shinkiro", '|') && QuoteFree("1.0.0", '|')
  {
  }

  lemma {:induction false} RawField(s: string)
    ensures Tight(s, Quote(s, '|'), '|') && (s == Quote(s, '|') <==> QuoteFree(s, '|'))
  {
    RawTight("", s, '|', '|');
    assert "" + s == s && "" + Quote(s, '|') == Quote(s, '|');
    QuoteFreeIs(s, '|');
  }

  lemma {:induction false} EscapedField(s: string)
    ensures Tight(Escape(s), Quote(s, '|'), '|') && (Escape(s) == Quote(s, '|') <==> '=' !in s)
  {
    EscapedTight("", s, '|', '|');
    assert "" + Escape(s) == Escape(s) && "" + Quote(s, '|') == Quote(s, '|');
    EscapeIsQuote(s, '|', '=');
  }

  lemma {:induction false} HeaderStandard(ev: Event)
    ensures var hs, gs := PrintedHeader(ev), QuotedFields(Header(ev));
      && |hs| == |gs| && (forall i :: 0 <= i < |hs| ==> Tight(hs[i], gs[i], '|'))
      && (hs == gs <==> QuoteFree(ev.decoyName, '|') && '=' !in ev.action)
  {
    hide *;
    var sev, action := Itoa(CefSeverity(ev.severity)), EscapeCEFValue(ev.action);
    ThreePassesEscape(ev.action);
    NumbersQuoteFree(CefSeverity(ev.severity), '|');
    HeaderConstants();
    RawField("CEF:0");
    RawField("Haiagari");
    RawField("Shinkiro");
    RawField("1.0.0");
    RawField(ev.decoyName);
    EscapedField(ev.action);
    RawField(sev);
    HeaderParts(ev);
    SevenFields(["CEF:0", "Haiagari", "Shinkiro", "1.0.0", ev.decoyName, action, sev], Header(ev));
  }

  lemma {:induction false} SevenFields(hs: seq<string>, fields: seq<string>)
    requires |hs| == |fields| == 7
    ensures |hs| == |QuotedFields(fields)|
    ensures (forall i :: 0 <= i < 7 ==> Tight(hs[i], QuotedFields(fields)[i], '|')) <==>
      (&& Tight(hs[0], Quote(fields[0], '|'), '|') && Tight(hs[1], Quote(fields[1], '|'), '|')
       && Tight(hs[2], Quote(fields[2], '|'), '|') && Tight(hs[3], Quote(fields[3], '|'), '|')
       && Tight(hs[4], Quote(fields[4], '|'), '|') && Tight(hs[5], Quote(fields[5], '|'), '|')
       && Tight(hs[6], Quote(fields[6], '|'), '|'))
    ensures hs == QuotedFields(fields) <==>
      (&& hs[0] == Quote(fields[0], '|') && hs[1] == Quote(fields[1], '|') && hs[2] == Quote(fields[2], '|')
       && hs[3] == Quote(fields[3], '|') && hs[4] == Quote(fields[4], '|') && hs[5] == Quote(fields[5], '|')
       && hs[6] == Quote(fields[6], '|'))
  {
    hide Tight, Quote;
  }

  /** The events a reader with the standard's escapes understands. */
  predicate StandardReads(ev: Event) {
    && QuoteFree(ev.remoteIP, '=') && QuoteFree(TechniqueID(ev), '=')
    && QuoteFree(ev.decoyName, '=') && QuoteFree(ev.decoyName, '|')
    && '=' !in ev.action && '|' !in ev.action
    && '|' !in TechniqueName(ev) && '|' !in ev.username && '|' !in ev.command
  }

  lemma {:induction false} LabelsQuoteFree()
    ensures QuoteFree("MitreTechniqueID", '=') && QuoteFree("MitreTechniqueName", '=') && QuoteFree("ThreatScore", '=')
  {
  }

  lemma {:induction false} PairsStandard(ev: Event)
    ensures (forall i :: 0 <= i < |Pairs(ev)| ==> PairStandard(Pairs(ev)[i], RawAt(i))) <==>
      && QuoteFree(ev.remoteIP, '=') && QuoteFree(TechniqueID(ev), '=') && QuoteFree(ev.decoyName, '=')
      && '|' !in ev.action && '|' !in TechniqueName(ev) && '|' !in ev.username && '|' !in ev.command
  {
    LabelsQuoteFree();
    NumbersQuoteFree(ev.remotePort, '=');
    NumbersQuoteFree(ev.localPort, '=');
    NumbersQuoteFree(Millis(ev.timestamp), '=');
    NumbersQuoteFree(ev.threatScore, '=');
    hide Itoa, Millis, TechniqueID, TechniqueName, QuoteFree;
    var ps := Pairs(ev);
    assert ps[0].1 == ev.remoteIP && ps[3].1 == ev.decoyName && ps[4].1 == ev.action;
    assert ps[6].1 == TechniqueID(ev) && ps[8].1 == TechniqueName(ev);
    assert ev.username != "" ==> ps[12] == ("suser", ev.username);
    assert ev.command != "" ==> ps[|ps| - 1] == ("msg", ev.command);
  }

  /**
    Main result. A reader with the standard's own escapes recovers the seven header fields and every
    extension pair of a FormatCEF line if and only if no escaped value holds the delimiter its section
    leaves alone - an equals sign in the header's action, a pipe in the extension - and no raw value holds
    a backslash or its section's delimiter.
   */
  lemma {:induction false} StandardReadsExactly(ev: Event)
    ensures Read(FormatCEF(ev)) == Some((Header(ev), Pairs(ev))) <==> StandardReads(ev)
  {
    FormatIsLine(ev);
    KeysNoSpace(ev);
    RawEntries(ev);
    HeaderStandard(ev);
    ExtensionsStandard(ev);
    PairsStandard(ev);
    hide Tight, Extensions, Pairs, PrintedHeader, FormatCEF, QuotedFields, QuotedPairs, Read, Piped, Join, QuoteFree,
         PairStandard, RawAt, TechniqueID, TechniqueName;
    LinesSame(PrintedHeader(ev), QuotedFields(Header(ev)), Extensions(ev), QuotedPairs(Pairs(ev)));
    ParsesExactly(FormatCEF(ev), Header(ev), Pairs(ev));
  }
}
