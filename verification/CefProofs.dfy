// FormatCEF lines parse back to the event's fields exactly when the unescaped fields are clean.
module CefProofs {
  import opened Basics
  import opened Events
  import opened Text
  import opened Cef
  import opened CefParser

  /** The header a reader should see. */
  function Header(ev: Event): seq<string> {
    ["CEF:0", "Haiagari", "Shinkiro", "1.0.0", ev.decoyName, ev.action, Itoa(CefSeverity(ev.severity))]
  }

  function FixedPairs(ev: Event): seq<Pair> {
    [ ("src", ev.remoteIP),
      ("spt", Itoa(ev.remotePort)),
      ("dpt", Itoa(ev.localPort)),
      ("app", ev.decoyName),
      ("act", ev.action),
      ("rt", Itoa(Millis(ev.timestamp))),
      ("cs1", TechniqueID(ev)),
      ("cs1Label", "MitreTechniqueID"),
      ("cs2", TechniqueName(ev)),
      ("cs2Label", "MitreTechniqueName"),
      ("cn1", Itoa(ev.threatScore)),
      ("cn1Label", "ThreatScore")]
  }

  /** The extension pairs a reader should see. */
  function Pairs(ev: Event): seq<Pair> {
    FixedPairs(ev)
    + (if ev.username != "" then [("suser", ev.username)] else [])
    + (if ev.command != "" then [("msg", ev.command)] else [])
  }

  // ---------- the three passes are one character-wise escape ----------

  lemma {:induction false} ReplaceConcat(a: string, b: string, c: char, subst: string)
    ensures ReplaceChar(a + b, c, subst) == ReplaceChar(a, c, subst) + ReplaceChar(b, c, subst)
  {
    if a == "" {
      assert a + b == b;
    } else {
      ReplaceConcat(a[1..], b, c, subst);
      assert (a + b)[1..] == a[1..] + b;
      var head := if a[0] == c then subst else [a[0]];
      ConcatAssociative(head, ReplaceChar(a[1..], c, subst), ReplaceChar(b, c, subst));
    }
  }

  lemma {:induction false} ReplaceOne(x: char, c: char, subst: string)
    ensures ReplaceChar([x], c, subst) == if x == c then subst else [x]
  {
    assert [x][1..] == "";
    assert ReplaceChar("", c, subst) == "";
  }

  lemma {:induction false} ReplaceTwo(x: char, y: char, c: char, subst: string)
    requires x != c && y != c
    ensures ReplaceChar([x, y], c, subst) == [x, y]
  {
    assert [x, y] == [x] + [y];
    ReplaceConcat([x], [y], c, subst);
    ReplaceOne(x, c, subst);
    ReplaceOne(y, c, subst);
  }

  lemma {:induction false} EscapeOneChar(c: char)
    ensures EscapeCEFValue([c]) == EscapeChar(c)
  {
    ReplaceOne(c, '\\', "\\\\");
    ReplaceOne(c, '=', "\\=");
    ReplaceOne(c, '|', "\\|");
    ReplaceTwo('\\', '\\', '=', "\\=");
    ReplaceTwo('\\', '\\', '|', "\\|");
    ReplaceTwo('\\', '=', '|', "\\|");
  }

  lemma {:induction false} ThreePassesEscape(val: string)
    ensures EscapeCEFValue(val) == Escape(val)
  {
    if val != "" {
      var head, tail := [val[0]], val[1..];
      assert val == head + tail;
      ReplaceConcat(head, tail, '\\', "\\\\");
      var h1, t1 := ReplaceChar(head, '\\', "\\\\"), ReplaceChar(tail, '\\', "\\\\");
      ReplaceConcat(h1, t1, '=', "\\=");
      var h2, t2 := ReplaceChar(h1, '=', "\\="), ReplaceChar(t1, '=', "\\=");
      ReplaceConcat(h2, t2, '|', "\\|");
      EscapeOneChar(val[0]);
      ThreePassesEscape(tail);
    }
  }

  // ---------- text of a rendering ----------

  lemma {:induction false} UnlexStep(ts: seq<Token>)
    requires ts != []
    ensures Unlex(ts) == TokenText(ts[0]) + Unlex(ts[1..])
  {
    hide TokenText;
  }

  lemma {:induction false} UnlexConcat(a: seq<Token>, b: seq<Token>)
    ensures Unlex(a + b) == Unlex(a) + Unlex(b)
  {
    if a == [] {
      assert a + b == b;
      assert Unlex(a) == "" && "" + Unlex(b) == Unlex(b);
    } else {
      hide *;
      UnlexConcat(a[1..], b);
      UnlexStep(a + b);
      UnlexStep(a);
      assert (a + b)[1..] == a[1..] + b && (a + b)[0] == a[0];
      ConcatAssociative(TokenText(a[0]), Unlex(a[1..]), Unlex(b));
    }
  }

  lemma {:induction false} UnlexLits(s: string)
    ensures Unlex(Lits(s)) == Escape(s)
  {
    if s != "" {
      UnlexLits(s[1..]);
      assert Lits(s)[1..] == Lits(s[1..]);
    }
  }

  lemma {:induction false} EscapeConcat(a: string, b: string)
    ensures Escape(a + b) == Escape(a) + Escape(b)
  {
    if a == "" {
      assert a + b == b;
    } else {
      EscapeConcat(a[1..], b);
      assert (a + b)[1..] == a[1..] + b;
      ConcatAssociative(EscapeChar(a[0]), Escape(a[1..]), Escape(b));
      hide EscapeChar;
    }
  }

  lemma {:induction false} EscapeLength(s: string)
    ensures |s| <= |Escape(s)|
    ensures |s| == |Escape(s)| <==> Clean(s)
    ensures Clean(s) ==> Escape(s) == s
  {
    if s != "" {
      EscapeLength(s[1..]);
      assert s == [s[0]] + s[1..];
      assert forall i :: 0 <= i < |s[1..]| ==> s[1..][i] == s[i + 1];
    }
  }

  /** Fields each followed by a pipe. */
  function Piped(fields: seq<string>): string {
    if fields == [] then "" else fields[0] + "|" + Piped(fields[1..])
  }

  function Escaped(fields: seq<string>): seq<string> {
    seq(|fields|, i requires 0 <= i < |fields| => Escape(fields[i]))
  }

  function PairText(p: Pair): string {
    Escape(p.0) + "=" + Escape(p.1)
  }

  function PairTexts(pairs: seq<Pair>): seq<string> {
    seq(|pairs|, i requires 0 <= i < |pairs| => PairText(pairs[i]))
  }

  function Line(head: seq<string>, ext: seq<string>): string {
    Piped(head) + Join(ext, " ")
  }

  lemma {:induction false} FieldTokensText(fields: seq<string>)
    ensures Unlex(FieldTokens(fields)) == Piped(Escaped(fields))
  {
    if fields != [] {
      FieldTokensText(fields[1..]);
      assert Escaped(fields)[1..] == Escaped(fields[1..]);
      UnlexConcat(Lits(fields[0]) + [Pipe], FieldTokens(fields[1..]));
      UnlexConcat(Lits(fields[0]), [Pipe]);
      UnlexLits(fields[0]);
      assert [Pipe][1..] == [];
      assert Unlex([Pipe]) == "|";
    }
  }

  lemma {:induction false} SegmentStep(first: string, rest: seq<string>)
    requires rest != []
    ensures Unlex(SegmentTokens([first] + rest)) == Escape(first) + "=" + Unlex(SegmentTokens(rest))
  {
    var segments := [first] + rest;
    assert segments[1..] == rest;
    UnlexConcat(Lits(first) + [Equals], SegmentTokens(rest));
    UnlexConcat(Lits(first), [Equals]);
    UnlexLits(first);
    assert [Equals][1..] == [];
    assert Unlex([Equals]) == "=";
  }

  lemma {:induction false} JoinPairTexts(pairs: seq<Pair>)
    requires |pairs| > 1
    ensures Join(PairTexts(pairs), " ") == PairText(pairs[0]) + " " + Join(PairTexts(pairs[1..]), " ")
  {
    assert PairTexts(pairs)[1..] == PairTexts(pairs[1..]);
  }

  lemma {:induction false} EscapeSpaced(value: string)
    ensures Escape(value + " ") == Escape(value) + " "
  {
    EscapeConcat(value, " ");
    assert Escape(" ") == " " + Escape("");
  }

  lemma {:induction false} Regroup(x: string, key: string, value: string, rest: string)
    ensures x + key + "=" + (value + " " + rest) == x + (key + "=" + value + " " + rest)
  {
  }

  lemma {:induction false} LastPair(x: string, key: string, value: string)
    ensures x + key + "=" + value == x + (key + "=" + value)
  {
  }

  lemma {:induction false} SegmentTokensText(x: string, pairs: seq<Pair>)
    requires pairs != []
    ensures Unlex(SegmentTokens([x + pairs[0].0] + Segments(pairs)))
            == Escape(x) + Join(PairTexts(pairs), " ")
    decreases |pairs|
  {
    var p := pairs[0];
    SegmentStep(x + p.0, Segments(pairs));
    EscapeConcat(x, p.0);
    if |pairs| == 1 {
      UnlexLits(p.1);
      LastPair(Escape(x), Escape(p.0), Escape(p.1));
      assert PairTexts(pairs) == [PairText(p)];
    } else {
      hide Escape, Unlex, SegmentTokens, Join, PairTexts;
      SegmentTokensText(p.1 + " ", pairs[1..]);
      EscapeSpaced(p.1);
      JoinPairTexts(pairs);
      Regroup(Escape(x), Escape(p.0), Escape(p.1), Join(PairTexts(pairs[1..]), " "));
    }
  }

  lemma {:induction false} NothingBefore(pairs: seq<Pair>)
    requires pairs != []
    ensures "" + pairs[0].0 == pairs[0].0
    ensures Escape("") + Join(PairTexts(pairs), " ") == Join(PairTexts(pairs), " ")
  {
    hide PairTexts, Join;
  }

  lemma {:induction false} LineIs(fields: seq<string>, pairs: seq<Pair>)
    requires pairs != []
    ensures LineTokens(fields, pairs) == FieldTokens(fields) + SegmentTokens([pairs[0].0] + Segments(pairs))
    ensures Line(Escaped(fields), PairTexts(pairs)) == Piped(Escaped(fields)) + Join(PairTexts(pairs), " ")
  {
    hide FieldTokens, SegmentTokens, Segments, Piped, Join;
  }

  lemma {:induction false} LineTokensText(fields: seq<string>, pairs: seq<Pair>)
    requires pairs != []
    ensures Unlex(LineTokens(fields, pairs)) == Line(Escaped(fields), PairTexts(pairs))
  {
    hide *;
    FieldTokensText(fields);
    SegmentTokensText("", pairs);
    NothingBefore(pairs);
    LineIs(fields, pairs);
    UnlexConcat(FieldTokens(fields), SegmentTokens([pairs[0].0] + Segments(pairs)));
  }

  // ---------- what FormatCEF prints, field by field ----------

  function PrintedHeader(ev: Event): seq<string> {
    ["CEF:0", "Haiagari", "Shinkiro", "1.0.0", ev.decoyName, EscapeCEFValue(ev.action),
     Itoa(CefSeverity(ev.severity))]
  }

  lemma {:induction false} PipedStep(first: string, rest: seq<string>)
    ensures Piped([first] + rest) == first + "|" + Piped(rest)
  {
    assert ([first] + rest)[1..] == rest;
  }

  lemma {:induction false} PipedTail(decoy: string, action: string, severity: string)
    ensures Piped([decoy, action, severity]) == decoy + "|" + action + "|" + severity + "|"
  {
    PipedStep(decoy, [action, severity]);
    PipedStep(action, [severity]);
    PipedStep(severity, []);
    assert [decoy, action, severity] == [decoy] + [action, severity];
    assert [action, severity] == [action] + [severity];
    assert [severity] == [severity] + [];
  }

  lemma {:induction false} PreambleText(t: string)
    ensures "CEF:0" + "|" + ("Haiagari" + "|" + ("Shinkiro" + "|" + ("1.0.0" + "|" + t)))
            == "CEF:0|Haiagari|Shinkiro|1.0.0|" + t
  {
    assert "Shinkiro" + "|" + ("1.0.0" + "|" + t) == "Shinkiro|1.0.0|" + t;
    assert "Haiagari" + "|" + ("Shinkiro|1.0.0|" + t) == "Haiagari|Shinkiro|1.0.0|" + t;
    assert "CEF:0" + "|" + ("Haiagari|Shinkiro|1.0.0|" + t) == "CEF:0|Haiagari|Shinkiro|1.0.0|" + t;
  }

  lemma {:induction false} PipedPreamble(rest: seq<string>)
    ensures Piped(["CEF:0", "Haiagari", "Shinkiro", "1.0.0"] + rest) ==
            "CEF:0|Haiagari|Shinkiro|1.0.0|" + Piped(rest)
  {
    var r3 := ["1.0.0"] + rest;
    var r2 := ["Shinkiro"] + r3;
    var r1 := ["Haiagari"] + r2;
    assert ["CEF:0", "Haiagari", "Shinkiro", "1.0.0"] + rest == ["CEF:0"] + r1;
    PipedStep("1.0.0", rest);
    PipedStep("Shinkiro", r3);
    PipedStep("Haiagari", r2);
    PipedStep("CEF:0", r1);
    PreambleText(Piped(rest));
  }

  lemma {:induction false} HeaderParts(ev: Event)
    ensures PrintedHeader(ev) ==
      ["CEF:0", "Haiagari", "Shinkiro", "1.0.0", ev.decoyName, EscapeCEFValue(ev.action), Itoa(CefSeverity(ev.severity))]
    ensures Header(ev) ==
      ["CEF:0", "Haiagari", "Shinkiro", "1.0.0", ev.decoyName, ev.action, Itoa(CefSeverity(ev.severity))]
  {
    hide Itoa, CefSeverity, EscapeCEFValue;
  }

  lemma {:induction false} FormatIsLine(ev: Event)
    ensures FormatCEF(ev) == Line(PrintedHeader(ev), Extensions(ev))
  {
    hide Itoa, CefSeverity, EscapeCEFValue, Extensions, Join;
    var action, severity := EscapeCEFValue(ev.action), Itoa(CefSeverity(ev.severity));
    var tail := [ev.decoyName, action, severity];
    PipedTail(ev.decoyName, action, severity);
    PipedPreamble(tail);
    assert PrintedHeader(ev) == ["CEF:0", "Haiagari", "Shinkiro", "1.0.0"] + tail;
  }

  lemma {:induction false} DigitsClean(n: nat)
    ensures Clean(NatDigits(n))
  {
    if n >= 10 {
      DigitsClean(n / 10);
    }
  }

  lemma {:induction false} NumbersClean(n: int)
    ensures Clean(Itoa(n))
  {
    DigitsClean(if n < 0 then -n else n);
  }

  /** text prints the pair p, its key clean and its value either raw or escaped. */
  predicate Prints(text: string, p: Pair) {
    Clean(p.0) && (text == p.0 + "=" + p.1 || text == p.0 + "=" + Escape(p.1))
  }

  lemma {:induction false} PrintsLength(text: string, p: Pair)
    requires Prints(text, p)
    ensures |text| <= |PairText(p)|
    ensures Clean(p.1) ==> text == PairText(p)
    ensures text == p.0 + "=" + p.1 && |text| == |PairText(p)| ==> Clean(p.1)
  {
    EscapeLength(p.0);
    EscapeLength(p.1);
  }

  lemma {:induction false} ConstantsClean()
    ensures Clean("src") && Clean("spt") && Clean("dpt") && Clean("app") && Clean("act") && Clean("rt")
    ensures Clean("cs1") && Clean("cs1Label") && Clean("cs2") && Clean("cs2Label")
    ensures Clean("cn1") && Clean("cn1Label") && Clean("suser") && Clean("msg")
  {
  }

  lemma {:induction false} KeysNoSpace(ev: Event)
    ensures KeysHaveNoSpace(Pairs(ev))
  {
  }

  /** Extension entries whose value is printed as it is. */
  predicate RawAt(i: nat) {
    i != 4 && i != 8 && i < 12
  }

  function PrintedPair(p: Pair, raw: bool): string {
    p.0 + "=" + if raw then p.1 else Escape(p.1)
  }

  lemma {:induction false} LabelsPrint()
    ensures "cs1Label=MitreTechniqueID" == PrintedPair(("cs1Label", "MitreTechniqueID"), true)
    ensures "cs2Label=MitreTechniqueName" == PrintedPair(("cs2Label", "MitreTechniqueName"), true)
    ensures "cn1Label=ThreatScore" == PrintedPair(("cn1Label", "ThreatScore"), true)
  {
    assert "cs1Label=MitreTechniqueID" == "cs1Label" + "=" + "MitreTechniqueID";
    assert "cs2Label=MitreTechniqueName" == "cs2Label" + "=" + "MitreTechniqueName";
    assert "cn1Label=ThreatScore" == "cn1Label" + "=" + "ThreatScore";
  }

  lemma {:induction false} FixedPrinted(ev: Event)
    ensures |FixedExtensions(ev)| == |FixedPairs(ev)| == 12
    ensures forall i :: 0 <= i < 12 ==> FixedExtensions(ev)[i] == PrintedPair(FixedPairs(ev)[i], RawAt(i))
  {
    LabelsPrint();
    ThreePassesEscape(ev.action);
    ThreePassesEscape(TechniqueName(ev));
    hide Itoa, EscapeCEFValue, Escape, Millis, TechniqueID, TechniqueName;
  }

  /** Every extension prints its pair, two of the fixed ones and the optional ones escaped. */
  lemma {:induction false} PairsPrinted(ev: Event)
    ensures |Extensions(ev)| == |Pairs(ev)| >= 12
    ensures forall i :: 0 <= i < |Pairs(ev)| ==> Extensions(ev)[i] == PrintedPair(Pairs(ev)[i], RawAt(i))
  {
    FixedPrinted(ev);
    ThreePassesEscape(ev.username);
    ThreePassesEscape(ev.command);
    hide EscapeCEFValue, Escape, FixedExtensions, FixedPairs;
  }

  lemma {:induction false} KeysAreClean(ev: Event)
    ensures forall i :: 0 <= i < |Pairs(ev)| ==> Clean(Pairs(ev)[i].0)
  {
    ConstantsClean();
    hide Itoa, Millis, TechniqueID, TechniqueName, Clean;
  }

  lemma {:induction false} ExtensionsPrint(ev: Event)
    ensures |Extensions(ev)| == |Pairs(ev)|
    ensures forall i :: 0 <= i < |Pairs(ev)| ==> Prints(Extensions(ev)[i], Pairs(ev)[i])
  {
    PairsPrinted(ev);
    KeysAreClean(ev);
    hide Extensions, Pairs, RawAt, Escape, Clean;
  }

  lemma {:induction false} HeaderPrints(ev: Event)
    ensures |PrintedHeader(ev)| == |Escaped(Header(ev))| == 7
    ensures forall i :: 0 <= i < 7 ==> |PrintedHeader(ev)[i]| <= |Escaped(Header(ev))[i]|
    ensures Clean(ev.decoyName) ==> PrintedHeader(ev) == Escaped(Header(ev))
  {
    var sev := Itoa(CefSeverity(ev.severity));
    NumbersClean(CefSeverity(ev.severity));
    EscapeLength(sev);
    EscapeLength("CEF:0");
    EscapeLength("Haiagari");
    EscapeLength("Shinkiro");
    EscapeLength("1.0.0");
    EscapeLength(ev.decoyName);
    ThreePassesEscape(ev.action);
    hide Itoa, CefSeverity, Escape, EscapeCEFValue;
    var want := Escaped(Header(ev));
    assert want[0] == "CEF:0" && want[1] == "Haiagari" && want[2] == "Shinkiro" && want[3] == "1.0.0";
    assert want[4] == Escape(ev.decoyName) && want[5] == Escape(ev.action) && want[6] == sev;
  }

  // ---------- lines of equal length agree field by field in length ----------

  lemma {:induction false} PipedLength(a: seq<string>, b: seq<string>)
    requires |a| == |b| && forall i :: 0 <= i < |a| ==> |a[i]| <= |b[i]|
    ensures |Piped(a)| <= |Piped(b)|
    ensures |Piped(a)| == |Piped(b)| ==> forall i :: 0 <= i < |a| ==> |a[i]| == |b[i]|
  {
    if a != [] {
      PipedLength(a[1..], b[1..]);
      assert forall i :: 0 < i < |a| ==> a[i] == a[1..][i - 1] && b[i] == b[1..][i - 1];
    }
  }

  lemma {:induction false} JoinLength(a: seq<string>, b: seq<string>)
    requires |a| == |b| && forall i :: 0 <= i < |a| ==> |a[i]| <= |b[i]|
    ensures |Join(a, " ")| <= |Join(b, " ")|
    ensures |Join(a, " ")| == |Join(b, " ")| ==> forall i :: 0 <= i < |a| ==> |a[i]| == |b[i]|
  {
    if |a| > 1 {
      JoinLength(a[1..], b[1..]);
      assert forall i :: 0 < i < |a| ==> a[i] == a[1..][i - 1] && b[i] == b[1..][i - 1];
    }
  }

  /** The fields FormatCEF prints without escaping. */
  predicate RawFieldsClean(ev: Event) {
    Clean(ev.remoteIP) && Clean(ev.decoyName) && Clean(TechniqueID(ev))
  }

  /** The rendering of the event's own fields, as the reader expects it. */
  function Canonical(ev: Event): string {
    Unlex(LineTokens(Header(ev), Pairs(ev)))
  }

  lemma {:induction false} LabelsClean()
    ensures Clean("MitreTechniqueID") && Clean("MitreTechniqueName") && Clean("ThreatScore")
  {
  }

  /** text prints the pair p as the reader expects it. */
  predicate Shows(text: string, p: Pair) {
    Prints(text, p) && (Clean(p.1) || text == p.0 + "=" + Escape(p.1))
  }

  lemma {:induction false} ExtensionsShow(ev: Event)
    requires RawFieldsClean(ev)
    ensures |Extensions(ev)| == |Pairs(ev)|
    ensures forall i :: 0 <= i < |Pairs(ev)| ==> Shows(Extensions(ev)[i], Pairs(ev)[i])
  {
    ExtensionsPrint(ev);
    hide Itoa, EscapeCEFValue, Escape, Millis, TechniqueID, TechniqueName, Clean, Prints;
    LabelsClean();
    NumbersClean(ev.remotePort);
    NumbersClean(ev.localPort);
    NumbersClean(Millis(ev.timestamp));
    NumbersClean(ev.threatScore);
    ThreePassesEscape(ev.action);
    ThreePassesEscape(TechniqueName(ev));
    ThreePassesEscape(ev.username);
    ThreePassesEscape(ev.command);
  }

  lemma {:induction false} CleanLinesAreCanonical(ev: Event)
    requires RawFieldsClean(ev)
    ensures FormatCEF(ev) == Canonical(ev)
  {
    FormatIsLine(ev);
    HeaderPrints(ev);
    ExtensionsShow(ev);
    LineTokensText(Header(ev), Pairs(ev));
    var texts := PairTexts(Pairs(ev));
    forall i | 0 <= i < |texts|
      ensures Extensions(ev)[i] == texts[i]
    {
      PrintsLength(Extensions(ev)[i], Pairs(ev)[i]);
      EscapeLength(Pairs(ev)[i].0);
    }
    assert Extensions(ev) == texts;
  }

  lemma {:induction false} RawEntries(ev: Event)
    ensures |Pairs(ev)| >= 12 && |Extensions(ev)| == |Pairs(ev)|
    ensures Extensions(ev)[0] == "src" + "=" + ev.remoteIP && Pairs(ev)[0] == ("src", ev.remoteIP)
    ensures Extensions(ev)[3] == "app" + "=" + ev.decoyName && Pairs(ev)[3] == ("app", ev.decoyName)
    ensures Extensions(ev)[6] == "cs1" + "=" + TechniqueID(ev) && Pairs(ev)[6] == ("cs1", TechniqueID(ev))
  {
    hide Itoa, EscapeCEFValue, Millis, TechniqueID, TechniqueName;
  }

  lemma {:induction false} CanonicalLinesAreClean(ev: Event)
    requires FormatCEF(ev) == Canonical(ev)
    ensures RawFieldsClean(ev)
  {
    FormatIsLine(ev);
    HeaderPrints(ev);
    ExtensionsPrint(ev);
    LineTokensText(Header(ev), Pairs(ev));
    var texts := PairTexts(Pairs(ev));
    forall i | 0 <= i < |texts|
      ensures |Extensions(ev)[i]| <= |texts[i]|
    {
      PrintsLength(Extensions(ev)[i], Pairs(ev)[i]);
    }
    PipedLength(PrintedHeader(ev), Escaped(Header(ev)));
    JoinLength(Extensions(ev), texts);
    RawEntries(ev);
    PrintsLength(Extensions(ev)[0], Pairs(ev)[0]);
    PrintsLength(Extensions(ev)[3], Pairs(ev)[3]);
    PrintsLength(Extensions(ev)[6], Pairs(ev)[6]);
  }

  /**
    Main result. A FormatCEF line parses back to the seven header fields and every extension pair of
    the event, whatever its action, username, command and technique name contain, if and only if the
    three fields printed raw - address, decoy name, technique ID - hold no backslash, equals or pipe.
    That a raw pipe in the extension, or a raw equals sign in the header, is refused belongs to this reader.
   */
  lemma {:induction false} FormatParsesBack(ev: Event)
    ensures Parse(FormatCEF(ev)) == Some((Header(ev), Pairs(ev))) <==> RawFieldsClean(ev)
  {
    if RawFieldsClean(ev) {
      CleanLinesAreCanonical(ev);
      KeysNoSpace(ev);
      ParseRender(Header(ev), Pairs(ev));
    }
    if Parse(FormatCEF(ev)) == Some((Header(ev), Pairs(ev))) {
      RenderParse(FormatCEF(ev));
      CanonicalLinesAreClean(ev);
    }
  }

  // ---------- newlines are printed raw ----------

  predicate OneLine(s: string) {
    '\n' !in s
  }

  lemma {:induction false} EscapeOneLine(s: string)
    ensures OneLine(Escape(s)) <==> OneLine(s)
  {
    if s != "" {
      EscapeOneLine(s[1..]);
      assert s == [s[0]] + s[1..];
    }
  }

  lemma {:induction false} PipedOneLine(fields: seq<string>)
    ensures OneLine(Piped(fields)) <==> forall i :: 0 <= i < |fields| ==> OneLine(fields[i])
  {
    if fields != [] {
      PipedOneLine(fields[1..]);
      assert forall i :: 0 < i < |fields| ==> fields[i] == fields[1..][i - 1];
    }
  }

  lemma {:induction false} JoinOneLine(parts: seq<string>)
    ensures OneLine(Join(parts, " ")) <==> forall i :: 0 <= i < |parts| ==> OneLine(parts[i])
  {
    if |parts| > 1 {
      JoinOneLine(parts[1..]);
      assert forall i :: 0 < i < |parts| ==> parts[i] == parts[1..][i - 1];
    }
  }

  lemma {:induction false} PrintsOneLine(text: string, p: Pair)
    requires Prints(text, p) && OneLine(p.0)
    ensures OneLine(text) <==> OneLine(p.1)
  {
    EscapeOneLine(p.1);
  }

  lemma {:induction false} NumbersOneLine(n: int)
    ensures OneLine(Itoa(n))
  {
    DigitsOneLine(if n < 0 then -n else n);
  }

  lemma {:induction false} DigitsOneLine(n: nat)
    ensures OneLine(NatDigits(n))
  {
    if n >= 10 {
      DigitsOneLine(n / 10);
    }
  }

  /** The fields that come from outside. */
  predicate TextFieldsOneLine(ev: Event) {
    && OneLine(ev.remoteIP) && OneLine(ev.decoyName) && OneLine(ev.action) && OneLine(TechniqueID(ev))
    && OneLine(TechniqueName(ev)) && OneLine(ev.username) && OneLine(ev.command)
  }

  lemma {:induction false} HeaderOneLine(ev: Event)
    ensures OneLine(Piped(PrintedHeader(ev))) <==> OneLine(ev.decoyName) && OneLine(ev.action)
  {
    var h := PrintedHeader(ev);
    NumbersOneLine(CefSeverity(ev.severity));
    ThreePassesEscape(ev.action);
    EscapeOneLine(ev.action);
    HeaderConstantsOneLine();
    PipedOneLine(h);
    hide *;
    HeaderParts(ev);
    SevenOneLine(h);
  }

  lemma {:induction false} SevenOneLine(h: seq<string>)
    requires |h| == 7
    ensures (forall i :: 0 <= i < 7 ==> OneLine(h[i])) <==>
      OneLine(h[0]) && OneLine(h[1]) && OneLine(h[2]) && OneLine(h[3]) && OneLine(h[4]) && OneLine(h[5]) && OneLine(h[6])
  {
    hide OneLine;
  }

  lemma {:induction false} HeaderConstantsOneLine()
    ensures OneLine("CEF:0") && OneLine("Haiagari") && OneLine("Shinkiro") && OneLine("1.0.0")
  {
  }

  lemma {:induction false} KeysOneLine()
    ensures OneLine("src") && OneLine("spt") && OneLine("dpt") && OneLine("app") && OneLine("act") && OneLine("rt")
    ensures OneLine("cs1") && OneLine("cs1Label") && OneLine("cs2") && OneLine("cs2Label")
    ensures OneLine("cn1") && OneLine("cn1Label") && OneLine("suser") && OneLine("msg")
    ensures OneLine("MitreTechniqueID") && OneLine("MitreTechniqueName") && OneLine("ThreatScore") && OneLine("")
  {
  }

  /** Keys hold no newline, and the values hold one exactly when a text field does. */
  lemma {:induction false} PairsOneLine(ev: Event)
    ensures forall i :: 0 <= i < |Pairs(ev)| ==> OneLine(Pairs(ev)[i].0)
    ensures (forall i :: 0 <= i < |Pairs(ev)| ==> OneLine(Pairs(ev)[i].1)) <==>
              OneLine(ev.remoteIP) && OneLine(ev.decoyName) && OneLine(ev.action) && OneLine(TechniqueID(ev))
              && OneLine(TechniqueName(ev)) && OneLine(ev.username) && OneLine(ev.command)
  {
    KeysOneLine();
    NumbersOneLine(ev.remotePort);
    NumbersOneLine(ev.localPort);
    NumbersOneLine(Millis(ev.timestamp));
    NumbersOneLine(ev.threatScore);
    hide Itoa, Millis, TechniqueID, TechniqueName, OneLine;
    var ps := Pairs(ev);
    assert ps[0].1 == ev.remoteIP && ps[3].1 == ev.decoyName && ps[4].1 == ev.action;
    assert ps[6].1 == TechniqueID(ev) && ps[8].1 == TechniqueName(ev);
    assert ev.username != "" ==> ps[12] == ("suser", ev.username);
    assert ev.command != "" ==> ps[|ps| - 1] == ("msg", ev.command);
  }

  /**
    Escaping leaves newlines alone: what FormatCEF prints is a single line if and only if none of the
    event's text fields holds a newline.
   */
  lemma {:induction false} FormatIsOneLine(ev: Event)
    ensures OneLine(FormatCEF(ev)) <==> TextFieldsOneLine(ev)
  {
    FormatIsLine(ev);
    HeaderOneLine(ev);
    PairsOneLine(ev);
    ExtensionsPrint(ev);
    var exts, ps := Extensions(ev), Pairs(ev);
    JoinOneLine(exts);
    assert OneLine(FormatCEF(ev)) <==> OneLine(Piped(PrintedHeader(ev))) && OneLine(Join(exts, " "));
    hide OneLine, Prints, FormatCEF, Extensions, Pairs;
    forall i | 0 <= i < |ps|
      ensures OneLine(exts[i]) <==> OneLine(ps[i].1)
    {
      PrintsOneLine(exts[i], ps[i]);
    }
  }

  // ---------- the computed fields ----------

  /** The time printed as rt is the timestamp in milliseconds, cut towards 1970, as far as nanoseconds fit 64 bits. */
  lemma {:induction false} TimeInMillis(t: Time)
    requires -0x8000_0000_0000_0000 <= t < 0x8000_0000_0000_0000
    ensures t >= 0 ==> 0 <= t - Millis(t) * 1_000_000 < 1_000_000 && Millis(t) >= 0
    ensures t < 0 ==> 0 <= Millis(t) * 1_000_000 - t < 1_000_000 && Millis(t) <= 0
  {
    assert WrapInt64(t) == t;
  }

  /** The standard's scale from 0 to 10, in the order of the severities. */
  lemma {:induction false} SeverityOrder(other: string)
    requires other !in {"CRITICAL", "HIGH", "MEDIUM", "LOW"}
    ensures 0 <= CefSeverity(other) < CefSeverity("LOW") < CefSeverity("MEDIUM") < CefSeverity("HIGH")
            < CefSeverity("CRITICAL") <= 10
    ensures CefSeverity("LOW") <= 3 && 4 <= CefSeverity("MEDIUM") <= 6 && 7 <= CefSeverity("HIGH") <= 8
            && CefSeverity("CRITICAL") >= 9
  {
    assert |"LOW"| == 3 && |"HIGH"| == 4 && |"MEDIUM"| == 6 && |"CRITICAL"| == 8;
  }

  /** The technique printed is the event's own, or active scanning when it was not mapped. */
  lemma {:induction false} TechniquePrinted(ev: Event)
    ensures ev.mitre == None ==> TechniqueID(ev) == "T1595" && TechniqueName(ev) == "Active Scanning"
    ensures ev.mitre.Some? ==>
      TechniqueID(ev) == ev.mitre.value.techniqueID && TechniqueName(ev) == ev.mitre.value.techniqueName
  {
  }
}
