// The printed nft scripts load as exactly the rules that were meant, over single blocks and whole runs.
module NftProofs {
  import opened Basics
  import opened Text
  import opened Nftables
  import opened Events
  import opened Blocking
  import opened Playbooks
  import opened RateProofs
  import opened BlockRunProofs
  import Defense

  // ---------- the words of the lines ----------

  /** Words with a space behind each. */
  function Spaced(ws: seq<string>): string {
    if ws == [] then "" else ws[0] + (" " + Spaced(ws[1..]))
  }

  lemma {:induction false} FieldsSpaced(ws: seq<string>, rest: string)
    requires AllWords(ws)
    ensures Fields(Spaced(ws) + rest) == ws + Fields(rest)
  {
    if ws == [] {
      assert Spaced(ws) + rest == rest;
    } else {
      var tail := Spaced(ws[1..]) + rest;
      SpacedStep(ws, rest);
      WordsStep(ws);
      hide *;
      FieldsSpaced(ws[1..], rest);
      SpaceFirst(tail);
      FieldsOfWord(ws[0], " " + tail);
      FieldsSkip(tail);
      assert ws == [ws[0]] + ws[1..];
      ConcatAssociative([ws[0]], ws[1..], Fields(rest));
    }
  }

  lemma {:induction false} SpacedStep(ws: seq<string>, rest: string)
    requires ws != []
    ensures Spaced(ws) + rest == ws[0] + (" " + (Spaced(ws[1..]) + rest))
  {
    var t := Spaced(ws[1..]);
    assert Spaced(ws) == ws[0] + (" " + t);
    hide Spaced;
    ConcatAssociative(ws[0], " " + t, rest);
    ConcatAssociative(" ", t, rest);
  }

  lemma {:induction false} WordsStep(ws: seq<string>)
    requires AllWords(ws) && ws != []
    ensures IsWord(ws[0]) && AllWords(ws[1..])
  {
    hide IsWord;
  }

  lemma {:induction false} SpaceFirst(t: string)
    ensures IsSpace((" " + t)[0])
  {
  }

  lemma {:induction false} FieldsSkip(t: string)
    ensures Fields(" " + t) == Fields(t)
  {
    assert (" " + t)[1..] == t;
  }

  lemma {:induction false} FieldsOne(w: string)
    requires IsWord(w)
    ensures Fields(w) == [w]
  {
    FieldsOfWord(w, "");
    assert w + "" == w;
  }

  lemma {:induction false} SpacedOneLine(ws: seq<string>)
    requires AllWords(ws)
    ensures '\n' !in Spaced(ws)
  {
    if ws != [] {
      WordOneLine(ws[0]);
      SpacedOneLine(ws[1..]);
    }
  }

  lemma {:induction false} WordOneLine(w: string)
    requires NoSpace(w)
    ensures '\n' !in w
  {
  }

  /** A line of several spaced parts and a last word. */
  lemma {:induction false} PartsRead(a: seq<string>, b: seq<string>, c: seq<string>, d: seq<string>, w: string)
    requires AllWords(a) && AllWords(b) && AllWords(c) && AllWords(d) && IsWord(w)
    ensures var line := Spaced(a) + (Spaced(b) + (Spaced(c) + (Spaced(d) + w)));
      Fields(line) == a + b + c + d + [w] && '\n' !in line
  {
    hide *;
    FieldsOne(w);
    FieldsSpaced(d, w);
    FieldsSpaced(c, Spaced(d) + w);
    FieldsSpaced(b, Spaced(c) + (Spaced(d) + w));
    FieldsSpaced(a, Spaced(b) + (Spaced(c) + (Spaced(d) + w)));
    SpacedOneLine(a);
    SpacedOneLine(b);
    SpacedOneLine(c);
    SpacedOneLine(d);
    IsWordNoSpace(w);
    WordOneLine(w);
    FiveParts(a, b, c, d, [w]);
  }

  lemma {:induction false} IsWordNoSpace(w: string)
    requires IsWord(w)
    ensures NoSpace(w)
  {
  }

  lemma {:induction false} FiveParts<T>(a: seq<T>, b: seq<T>, c: seq<T>, d: seq<T>, e: seq<T>)
    ensures a + (b + (c + (d + e))) == a + b + c + d + e
  {
    ConcatAssociative(c, d, e);
    ConcatAssociative(b, c + d, e);
    ConcatAssociative(b, c, d);
    ConcatAssociative(a, b + (c + d), e);
    ConcatAssociative(a, b, c + d);
    ConcatAssociative(a + b, c, d);
  }

  const TABLE := "shinkiro_filter"
  const SET := "blackhole"

  lemma {:induction false} Spaced1(a: string)
    ensures Spaced([a]) == a + " "
  {
    assert [a][1..] == [];
    assert Spaced([a]) == a + (" " + Spaced([a][1..]));
  }

  lemma {:induction false} Spaced2(a: string, b: string)
    ensures Spaced([a, b]) == a + (" " + (b + " "))
  {
    Spaced1(b);
    assert [a, b][1..] == [b];
  }

  lemma {:induction false} Spaced3(a: string, b: string, c: string)
    ensures Spaced([a, b, c]) == a + (" " + (b + (" " + (c + " "))))
  {
    Spaced2(b, c);
    assert [a, b, c][1..] == [b, c];
  }

  lemma {:induction false} VerbLiterals()
    ensures "add" + (" " + ("table" + (" " + ("inet" + " ")))) == "add table inet "
    ensures "add" + (" " + ("set" + (" " + ("inet" + " ")))) == "add set inet "
    ensures "add" + (" " + ("element" + (" " + ("inet" + " ")))) == "add element inet "
    ensures "add" + (" " + ("rule" + (" " + ("inet" + " ")))) == "add rule inet "
  {
  }

  lemma {:induction false} NameLiterals()
    ensures TABLE + " " == "shinkiro_filter " && SET + (" " + ("{" + " ")) == "blackhole { "
    ensures "type" + (" " + ("ipv4_addr;" + " ")) + "}" == "type ipv4_addr; }"
    ensures "input" + (" " + ("ip" + (" " + ("saddr" + " ")))) == "input ip saddr "
    ensures "@blackhole" + " " + "drop" == "@blackhole drop"
  {
  }

  lemma {:induction false} VerbWords()
    ensures IsWord("add") && IsWord("table") && IsWord("set") && IsWord("element") && IsWord("rule") && IsWord("inet")
  {
  }

  lemma {:induction false} NameWords()
    ensures IsWord(TABLE) && IsWord(SET) && IsWord("@blackhole")
  {
  }

  lemma {:induction false} TypeWords()
    ensures IsWord("type") && IsWord("ipv4_addr;") && IsWord("{") && IsWord("}")
  {
  }

  lemma {:induction false} RuleParts()
    ensures IsWord("input") && IsWord("ip") && IsWord("saddr") && IsWord("drop")
  {
  }

  lemma {:induction false} Words1(a: string)
    requires IsWord(a)
    ensures AllWords([a])
  {
    hide IsWord;
  }

  lemma {:induction false} Words2(a: string, b: string)
    requires IsWord(a) && IsWord(b)
    ensures AllWords([a, b])
  {
    hide IsWord;
  }

  lemma {:induction false} Words3(a: string, b: string, c: string)
    requires IsWord(a) && IsWord(b) && IsWord(c)
    ensures AllWords([a, b, c])
  {
    hide IsWord;
  }

  // The lines in terms of the spaced parts.

  lemma {:induction false} SetLineIs()
    ensures Defense.SetLine() ==
      Spaced(["add", "set", "inet"]) + (Spaced([TABLE]) + (Spaced([SET, "{"]) + (Spaced(["type", "ipv4_addr;"]) + "}")))
  {
    VerbLiterals();
    NameLiterals();
    Spaced3("add", "set", "inet");
    Spaced1(TABLE);
    Spaced2(SET, "{");
    Spaced2("type", "ipv4_addr;");
    hide Spaced;
  }

  lemma {:induction false} ElementLineIs(ip: string)
    ensures Defense.ElementLine(ip) ==
      Spaced(["add", "element", "inet"]) + (Spaced([TABLE]) + (Spaced([SET, "{"]) + (Spaced([ip]) + "}")))
  {
    VerbLiterals();
    NameLiterals();
    Spaced3("add", "element", "inet");
    Spaced1(TABLE);
    Spaced2(SET, "{");
    Spaced1(ip);
    hide Spaced;
    assert ip + " }" == ip + " " + "}";
  }

  lemma {:induction false} DropLineIs()
    ensures Defense.DropLine() ==
      Spaced(["add", "rule", "inet"])
      + (Spaced([TABLE]) + (Spaced(["input", "ip", "saddr"]) + (Spaced(["@blackhole"]) + "drop")))
  {
    VerbLiterals();
    NameLiterals();
    Spaced3("add", "rule", "inet");
    Spaced1(TABLE);
    Spaced3("input", "ip", "saddr");
    Spaced1("@blackhole");
    hide Spaced;
  }

  lemma {:induction false} TableLineIs()
    ensures Defense.TableLine() == Spaced(["add", "table", "inet"]) + TABLE
  {
    VerbLiterals();
    NameLiterals();
    Spaced3("add", "table", "inet");
    hide Spaced;
  }

  lemma {:induction false} TableLineReads()
    ensures Fields(Defense.TableLine()) == ["add", "table", "inet", TABLE] && '\n' !in Defense.TableLine()
  {
    hide *;
    VerbWords();
    NameWords();
    Words3("add", "table", "inet");
    TableLineIs();
    FieldsOne(TABLE);
    FieldsSpaced(["add", "table", "inet"], TABLE);
    SpacedOneLine(["add", "table", "inet"]);
    IsWordNoSpace(TABLE);
    WordOneLine(TABLE);
  }

  lemma {:induction false} SetLineReads()
    ensures Fields(Defense.SetLine()) == ["add", "set", "inet", TABLE, SET, "{", "type", "ipv4_addr;", "}"]
    ensures '\n' !in Defense.SetLine()
  {
    hide *;
    VerbWords();
    NameWords();
    TypeWords();
    Words3("add", "set", "inet");
    Words1(TABLE);
    Words2(SET, "{");
    Words2("type", "ipv4_addr;");
    SetLineIs();
    PartsRead(["add", "set", "inet"], [TABLE], [SET, "{"], ["type", "ipv4_addr;"], "}");
  }

  lemma {:induction false} ElementLineReads(ip: string)
    requires IsWord(ip)
    ensures Fields(Defense.ElementLine(ip)) == ["add", "element", "inet", TABLE, SET, "{", ip, "}"]
    ensures '\n' !in Defense.ElementLine(ip)
  {
    hide *;
    VerbWords();
    NameWords();
    TypeWords();
    Words3("add", "element", "inet");
    Words1(TABLE);
    Words2(SET, "{");
    Words1(ip);
    ElementLineIs(ip);
    PartsRead(["add", "element", "inet"], [TABLE], [SET, "{"], [ip], "}");
  }

  lemma {:induction false} DropLineReads()
    ensures Fields(Defense.DropLine()) == ["add", "rule", "inet", TABLE, "input", "ip", "saddr", "@blackhole", "drop"]
    ensures '\n' !in Defense.DropLine()
  {
    hide *;
    VerbWords();
    NameWords();
    RuleParts();
    Words3("add", "rule", "inet");
    Words1(TABLE);
    Words3("input", "ip", "saddr");
    Words1("@blackhole");
    DropLineIs();
    PartsRead(["add", "rule", "inet"], [TABLE], ["input", "ip", "saddr"], ["@blackhole"], "drop");
  }

  // ---------- the statements ----------

  lemma {:induction false} StatementsAre(ip: string)
    ensures Statement1(["add", "table", "inet", TABLE]) == Some(AddTable(TABLE))
    ensures Statement1(["add", "set", "inet", TABLE, SET, "{", "type", "ipv4_addr;", "}"]) == Some(AddSet(TABLE, SET))
    ensures Statement1(["add", "element", "inet", TABLE, SET, "{", ip, "}"]) == Some(AddElement(TABLE, SET, ip))
    ensures Statement1(["add", "rule", "inet", TABLE, "input", "ip", "saddr", "@blackhole", "drop"])
            == Some(AddDrop(TABLE, "input", SET))
  {
    assert "@blackhole"[0] == '@' && "@blackhole"[1..] == SET;
    assert |"set"| == 3 && |"rule"| == 4 && |"table"| == 5 && |"element"| == 7 && |"delete"| == 6 && |"add"| == 3;
    assert ["add", "set", "inet", TABLE, SET, "{", "type", "ipv4_addr;", "}"][5..] == ["{", "type", "ipv4_addr;", "}"];
  }

  function Listed(rs: Ruleset): set<string> {
    if (TABLE, SET) in rs.sets then rs.sets[(TABLE, SET)] else {}
  }

  /** The addresses are in the set, and sources in the set are dropped. */
  function Blackholed(rs: Ruleset, ips: set<string>): Ruleset {
    Ruleset(rs.tables + {TABLE}, rs.chains, rs.sets[(TABLE, SET) := Listed(rs) + ips],
            rs.drops + {(TABLE, "input", SET)})
  }

  function Prepared(rs: Ruleset, ips: set<string>): Ruleset {
    rs.(tables := rs.tables + {TABLE}, sets := rs.sets[(TABLE, SET) := Listed(rs) + ips])
  }

  function Members(ips: seq<string>): (s: set<string>)
    ensures forall ip :: ip in s <==> ip in ips
  {
    set ip | ip in ips
  }

  lemma {:induction false} LoadHeader(rs: Ruleset, rest: string)
    ensures LoadScript(rs, Defense.Header("nftables") + rest) == LoadScript(Prepared(rs, {}), rest)
  {
    hide *;
    var t, s := Defense.TableLine(), Defense.SetLine();
    NftHeader();
    TwoLines(t, s, rest);
    TableLineReads();
    SetLineReads();
    StatementsAre("");
    SetThere(rs);
    LoadLine(rs, t, s + ['\n'] + rest);
    LoadLine(rs.(tables := rs.tables + {TABLE}), s, rest);
  }

  lemma {:induction false} TwoLines(t: string, s: string, rest: string)
    ensures t + "\n" + (s + "\n") + rest == t + ['\n'] + (s + ['\n'] + rest)
  {
    ConcatAssociative(t + "\n", s + "\n", rest);
  }

  lemma {:induction false} SetThere(rs: Ruleset)
    ensures Perform(rs, AddTable(TABLE)) == Some(rs.(tables := rs.tables + {TABLE}))
    ensures Perform(rs.(tables := rs.tables + {TABLE}), AddSet(TABLE, SET)) == Some(Prepared(rs, {}))
  {
    if (TABLE, SET) in rs.sets {
      assert rs.sets[(TABLE, SET) := rs.sets[(TABLE, SET)]] == rs.sets;
      assert Listed(rs) + {} == Listed(rs);
    } else {
      assert Listed(rs) + {} == {};
    }
  }

  lemma {:induction false} NftHeader()
    ensures Defense.Header("nftables") == Defense.TableLine() + "\n" + (Defense.SetLine() + "\n")
    ensures Defense.Footer("nftables") == Defense.DropLine() + "\n"
    ensures forall ip :: Defense.Line(ip, "nftables") == Defense.ElementLine(ip) + "\n"
  {
    assert "nftables"[0] == 'n' && "iptables"[0] == 'i';
    hide Defense.TableLine, Defense.SetLine, Defense.DropLine, Defense.ElementLine;
  }

  lemma {:induction false} ElementsStep(rs: Ruleset, ips: set<string>, ip: string)
    ensures Perform(Prepared(rs, ips), AddElement(TABLE, SET, ip)) == Some(Prepared(rs, ips + {ip}))
  {
    var p := Prepared(rs, ips);
    assert p.sets[(TABLE, SET)] + {ip} == Listed(rs) + (ips + {ip});
    assert p.sets[(TABLE, SET) := Listed(rs) + (ips + {ip})] == rs.sets[(TABLE, SET) := Listed(rs) + (ips + {ip})];
  }

  lemma {:induction false} LoadElements(rs: Ruleset, ips: seq<string>, rest: string)
    requires AllWords(ips)
    ensures LoadScript(Prepared(rs, {}), Defense.Lines(ips, "nftables") + rest)
            == LoadScript(Prepared(rs, Members(ips)), rest)
  {
    if ips == [] {
      assert Defense.Lines(ips, "nftables") + rest == rest;
      assert Members(ips) == {};
    } else {
      var init, ip := ips[..|ips| - 1], ips[|ips| - 1];
      var line := Defense.ElementLine(ip);
      LastWord(ips);
      LinesOneMore(ips, rest);
      hide *;
      LoadElements(rs, init, line + ['\n'] + rest);
      ElementLineReads(ip);
      StatementsAre(ip);
      LoadLine(Prepared(rs, Members(init)), line, rest);
      ElementsStep(rs, Members(init), ip);
      MembersGrow(ips);
    }
  }

  lemma {:induction false} LastWord(ips: seq<string>)
    requires AllWords(ips) && ips != []
    ensures IsWord(ips[|ips| - 1]) && AllWords(ips[..|ips| - 1])
  {
    hide IsWord;
  }

  lemma {:induction false} MembersGrow(ips: seq<string>)
    requires ips != []
    ensures Members(ips) == Members(ips[..|ips| - 1]) + {ips[|ips| - 1]}
  {
    SplitLast(ips);
    assert forall ip :: ip in ips <==> ip in ips[..|ips| - 1] || ip == ips[|ips| - 1];
  }

  lemma {:induction false} LinesOneMore(ips: seq<string>, rest: string)
    requires ips != []
    ensures Defense.Lines(ips, "nftables") + rest ==
      Defense.Lines(ips[..|ips| - 1], "nftables") + (Defense.ElementLine(ips[|ips| - 1]) + ['\n'] + rest)
  {
    NftHeader();
    var ls, line := Defense.Lines(ips[..|ips| - 1], "nftables"), Defense.ElementLine(ips[|ips| - 1]);
    assert Defense.Lines(ips, "nftables") == ls + (line + "\n");
    hide *;
    ConcatAssociative(ls, line + "\n", rest);
  }

  lemma {:induction false} LoadFooter(rs: Ruleset, ips: set<string>)
    ensures LoadScript(Prepared(rs, ips), Defense.Footer("nftables")) ==
            if (TABLE, "input") in rs.chains then Some(Blackholed(rs, ips)) else None
  {
    NftHeader();
    DropLineReads();
    StatementsAre("");
    var line := Defense.DropLine();
    assert line + "\n" == line + ['\n'] + "";
    LoadLine(Prepared(rs, ips), line, "");
    hide LoadScript, Fields, Statement1, Defense.DropLine;
    if (TABLE, "input") in rs.chains {
      LoadNothing(Blackholed(rs, ips));
    }
  }

  /**
    For addresses that are words, the script loads if and only if the table has the chain input, which it does
    not create itself; the set has then grown by exactly those addresses, and sources in it are dropped.
   */
  lemma {:induction false} ScriptLoads(rs: Ruleset, ips: seq<string>)
    requires AllWords(ips)
    ensures LoadScript(rs, Defense.Rules(ips, "nftables")) ==
            if (TABLE, "input") in rs.chains then Some(Blackholed(rs, Members(ips))) else None
  {
    var h, ls, f := Defense.Header("nftables"), Defense.Lines(ips, "nftables"), Defense.Footer("nftables");
    ConcatAssociative(h, ls, f);
    LoadHeader(rs, ls + f);
    LoadElements(rs, ips, f);
    LoadFooter(rs, Members(ips));
    hide LoadScript, Defense.Header, Defense.Lines, Defense.Footer, Prepared, Blackholed;
  }

  // ---------- addresses that are no words ----------

  ghost predicate WordsOnly(rs: Ruleset) {
    forall key, a :: key in rs.sets && a in rs.sets[key] ==> IsWord(a)
  }

  lemma {:induction false} StatementWords(ws: seq<string>)
    requires AllWords(ws) && Statement1(ws).Some? && Statement1(ws).value.AddElement?
    ensures IsWord(Statement1(ws).value.address)
  {
  }

  lemma {:induction false} LoadKeepsWords(rs: Ruleset, lines: seq<string>)
    requires WordsOnly(rs) && Load(rs, lines).Some?
    ensures WordsOnly(Load(rs, lines).value)
    decreases |lines|
  {
    if lines != [] {
      var ws := Fields(lines[0]);
      if ws == [] {
        LoadKeepsWords(rs, lines[1..]);
      } else {
        var st := Statement1(ws).value;
        if st.AddElement? {
          StatementWords(ws);
        }
        hide Statement1, Fields, IsWord;
        LoadKeepsWords(Perform(rs, st).value, lines[1..]);
      }
    }
  }

  /**
    Main result. Into a ruleset with the chain and without the set, the printed script loads as the set of
    exactly the given addresses with a rule that drops them if and only if the addresses are words.
   */
  lemma {:induction false} ScriptLoadsExactly(rs: Ruleset, ips: seq<string>)
    requires WordsOnly(rs) && (TABLE, SET) !in rs.sets && (TABLE, "input") in rs.chains
    ensures LoadScript(rs, Defense.Rules(ips, "nftables")) == Some(Blackholed(rs, Members(ips))) <==> AllWords(ips)
  {
    if AllWords(ips) {
      ScriptLoads(rs, ips);
    }
    if LoadScript(rs, Defense.Rules(ips, "nftables")) == Some(Blackholed(rs, Members(ips))) {
      LoadKeepsWords(rs, Split(Defense.Rules(ips, "nftables"), '\n'));
      var after := Blackholed(rs, Members(ips));
      hide Defense.Rules, Split, Load, IsWord;
      assert (TABLE, SET) in after.sets;
      forall i | 0 <= i < |ips|
        ensures IsWord(ips[i])
      {
        assert ips[i] in after.sets[(TABLE, SET)];
      }
    }
  }

  // ---------- live blocks ----------

  predicate NftLive(cfg: Setup) {
    cfg.mode == "apply" && cfg.format == "nftables"
  }

  /** A live block in the default format runs one command, nft reading a script; no address is none. */
  lemma {:induction false} NftBlockRuns(cfg: Setup, r: Record, ip: string, reason: string)
    requires NftLive(cfg)
    ensures BlockStep(cfg, r, ip, reason).0.executed ==
      if ip == "" then r.executed
      else r.executed + [Command("nft", ["-f", "-"], Defense.Rules([ip], "nftables"))]
  {
    assert "nftables"[0] == 'n' && "iptables"[0] == 'i';
    hide Defense.Rules;
  }

  /** What the host's ruleset is after the scripts of the commands, all of them for nft. */
  function LoadAll(rs: Ruleset, commands: seq<Command>): Option<Ruleset> {
    if commands == [] then Some(rs)
    else
      var c := commands[|commands| - 1];
      match LoadAll(rs, commands[..|commands| - 1])
      case None => None
      case Some(before) => if c.name == "nft" && c.args == ["-f", "-"] then LoadScript(before, c.stdin) else None
  }

  function CallAddresses(calls: seq<Call>): seq<string> {
    seq(|calls|, i requires 0 <= i < |calls| => calls[i].ip)
  }

  function AfterBlocks(rs: Ruleset, ips: set<string>): Ruleset {
    if ips == {} then rs else Blackholed(rs, ips)
  }

  lemma {:induction false} OneMoreBlock(rs: Ruleset, ips: set<string>, ip: string)
    requires IsWord(ip) && (TABLE, "input") in rs.chains
    ensures LoadScript(AfterBlocks(rs, ips), Defense.Rules([ip], "nftables")) == Some(AfterBlocks(rs, ips + {ip}))
  {
    var one := [ip];
    assert AllWords(one);
    ScriptLoads(AfterBlocks(rs, ips), one);
    hide LoadScript, Defense.Rules, IsWord;
    assert Members(one) == {ip};
    BlackholedTwice(rs, ips, ip);
  }

  lemma {:induction false} BlackholedTwice(rs: Ruleset, ips: set<string>, ip: string)
    ensures Blackholed(AfterBlocks(rs, ips), {ip}) == AfterBlocks(rs, ips + {ip})
    ensures AfterBlocks(rs, ips).chains == rs.chains
  {
    assert ip in ips + {ip};
    var t := (TABLE, SET);
    if ips == {} {
      assert ips + {ip} == {ip};
    } else {
      var m := Blackholed(rs, ips);
      assert Listed(m) + {ip} == Listed(rs) + (ips + {ip});
      assert m.sets[t := Listed(m) + {ip}] == rs.sets[t := Listed(rs) + (ips + {ip})];
      assert m.tables + {TABLE} == m.tables;
      assert m.drops + {(TABLE, "input", SET)} == m.drops;
    }
  }

  lemma {:induction false} CallsLoad(cfg: Setup, calls: seq<Call>, rs: Ruleset)
    requires NftLive(cfg) && (TABLE, "input") in rs.chains && AllWords(CallAddresses(calls))
    ensures LoadAll(rs, DoAll(Some(cfg), NOTHING, calls).record.executed) == Some(AfterBlocks(rs, Blocked(calls)))
  {
    if calls == [] {
      assert Blocked(calls) == {};
    } else {
      var init, c := calls[..|calls| - 1], calls[|calls| - 1];
      assert IsWord(CallAddresses(calls)[|init|]);
      assert forall i :: 0 <= i < |init| ==> CallAddresses(init)[i] == CallAddresses(calls)[i];
      CallsLoad(cfg, init, rs);
      SplitLast(calls);
      var before := DoAll(Some(cfg), NOTHING, init).record;
      NftBlockRuns(cfg, before, c.ip, c.reason);
      DoAllAppend(Some(cfg), NOTHING, init, c);
      BlockedGrows(init, c);
      OneMoreBlock(rs, Blocked(init), c.ip);
      LoadOneMore(rs, before.executed, Command("nft", ["-f", "-"], Defense.Rules([c.ip], "nftables")));
      hide BlockStep, LoadAll, LoadScript, Defense.Rules, AfterBlocks, Blocked, DoAll;
    }
  }

  lemma {:induction false} LoadOneMore(rs: Ruleset, commands: seq<Command>, c: Command)
    requires c.name == "nft" && c.args == ["-f", "-"] && LoadAll(rs, commands).Some?
    ensures LoadAll(rs, commands + [c]) == LoadScript(LoadAll(rs, commands).value, c.stdin)
  {
    DropLast(commands, c);
    hide LoadScript;
  }

  /**
    Main result, live nftables mode. Over a whole run, on a host whose table has the chain input: the scripts
    run leave exactly the addresses of the due block calls in the set, with sources in it dropped.
   */
  lemma {:induction false} LiveRunBlackholes(cfg: Setup, rules: seq<Rule>, log: seq<Entry>, ok: Addresses, rs: Ruleset)
    requires Separate(rules, ok) && Clock(log) && From(log, ok) && NftLive(cfg)
    requires (TABLE, "input") in rs.chains && AllWords(CallAddresses(DueCalls(rules, log)))
    ensures LoadAll(rs, RunOf(Some(cfg), rules, log).record.executed)
            == Some(AfterBlocks(rs, Blocked(DueCalls(rules, log))))
  {
    RunMakesDueCalls(Some(cfg), rules, log, ok);
    CallsLoad(cfg, DueCalls(rules, log), rs);
    hide *;
  }

  // ---------- the formats that are only printed ----------

  predicate Plain(format: string) {
    format != "iptables" && format != "nftables"
  }

  function PrintedAs(ip: string, format: string): string {
    if format == "cidr" then ip + "/32" else ip
  }

  lemma {:induction false} PlainText(format: string)
    requires Plain(format)
    ensures Defense.Header(format) == "" && Defense.Footer(format) == ""
    ensures forall ip :: Defense.Line(ip, format) == PrintedAs(ip, format) + "\n"
  {
    assert "/32" + "\n" == "/32\n";
    assert forall ip: string :: ip + "/32\n" == ip + "/32" + "\n";
    hide Defense.TableLine, Defense.SetLine, Defense.DropLine, Defense.ElementLine;
  }

  function PrintedAll(ips: seq<string>, format: string): seq<string> {
    seq(|ips|, i requires 0 <= i < |ips| => PrintedAs(ips[i], format))
  }

  predicate AllOneLine(ips: seq<string>) {
    forall i :: 0 <= i < |ips| ==> '\n' !in ips[i]
  }

  lemma {:induction false} PlainLast(ips: seq<string>, format: string, rest: string)
    requires Plain(format) && ips != [] && AllOneLine(ips)
    ensures var init, line := ips[..|ips| - 1], PrintedAs(ips[|ips| - 1], format);
      && Defense.Lines(ips, format) + rest == Defense.Lines(init, format) + (line + ['\n'] + rest)
      && '\n' !in line && AllOneLine(init)
      && PrintedAll(ips, format) == PrintedAll(init, format) + [line]
  {
    hide *;
    var ip := ips[|ips| - 1];
    var init, line := ips[..|ips| - 1], PrintedAs(ip, format);
    PlainText(format);
    LinesLast(ips, format);
    OneLineLast(ips);
    PrintedOneLine(ip, format);
    PrintedLast(ips, format);
    ConcatAssociative(Defense.Lines(init, format), line + "\n", rest);
  }

  lemma {:induction false} LinesLast(ips: seq<string>, format: string)
    requires ips != []
    ensures Defense.Lines(ips, format) ==
            Defense.Lines(ips[..|ips| - 1], format) + Defense.Line(ips[|ips| - 1], format)
  {
    hide Defense.Line;
  }

  lemma {:induction false} OneLineLast(ips: seq<string>)
    requires ips != [] && AllOneLine(ips)
    ensures AllOneLine(ips[..|ips| - 1]) && '\n' !in ips[|ips| - 1]
  {
  }

  lemma {:induction false} PrintedOneLine(ip: string, format: string)
    requires '\n' !in ip
    ensures '\n' !in PrintedAs(ip, format)
  {
  }

  lemma {:induction false} PrintedLast(ips: seq<string>, format: string)
    requires ips != []
    ensures PrintedAll(ips, format) == PrintedAll(ips[..|ips| - 1], format) + [PrintedAs(ips[|ips| - 1], format)]
  {
    hide PrintedAs;
  }

  lemma {:induction false} PlainSplit(ips: seq<string>, format: string, rest: string)
    requires Plain(format) && AllOneLine(ips)
    ensures Split(Defense.Lines(ips, format) + rest, '\n') == PrintedAll(ips, format) + Split(rest, '\n')
  {
    if ips == [] {
      assert Defense.Lines(ips, format) + rest == rest;
    } else {
      hide *;
      var init, line := ips[..|ips| - 1], PrintedAs(ips[|ips| - 1], format);
      PlainLast(ips, format, rest);
      PlainSplit(init, format, line + ['\n'] + rest);
      SplitAtSeparator(line, '\n', rest);
      ConcatAssociative(PrintedAll(init, format), [line], Split(rest, '\n'));
    }
  }

  /** In cidr format each address is a line of its own, with /32 behind it; in an unknown format without. */
  lemma {:induction false} PlainLists(ips: seq<string>, format: string)
    requires Plain(format) && AllOneLine(ips)
    ensures Split(Defense.Rules(ips, format), '\n') == PrintedAll(ips, format) + [""]
  {
    SplitOfNothing();
    PlainRules(ips, format);
    hide *;
    PlainSplit(ips, format, "");
  }

  lemma {:induction false} SplitOfNothing()
    ensures Split("", '\n') == [""]
  {
  }

  lemma {:induction false} PlainRules(ips: seq<string>, format: string)
    requires Plain(format)
    ensures Defense.Rules(ips, format) == Defense.Lines(ips, format) + ""
  {
    hide *;
    PlainText(format);
    RulesAre(ips, format);
    NothingAround(Defense.Lines(ips, format));
  }

  lemma {:induction false} RulesAre(ips: seq<string>, format: string)
    ensures Defense.Rules(ips, format) == Defense.Header(format) + Defense.Lines(ips, format) + Defense.Footer(format)
  {
    hide Defense.Header, Defense.Lines, Defense.Footer;
  }

  lemma {:induction false} NothingAround(s: string)
    ensures "" + s + "" == s + ""
  {
  }
}
