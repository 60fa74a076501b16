// The printed firewall rules read back as exactly the command that was meant.
module BlockingProofs {
  import opened Basics
  import opened Text
  import opened Blocking
  import Defense

  /** The one command that blocks ip through iptables. */
  function BlockCommand(ip: string): Command {
    Command("iptables", ["-A", "INPUT", "-s", ip, "-j", "DROP"], "")
  }

  const COMMENT := Defense.COMMENT

  function RuleWords(ip: string): seq<string> {
    ["iptables", "-A", "INPUT", "-s", ip, "-j", "DROP"]
  }

  /** The rule line, without its newline, is its words joined by single spaces. */
  lemma {:induction false} RuleLineIsJoin(ip: string)
    ensures Defense.Line(ip, Defense.FORMAT_IPTABLES) == Join(RuleWords(ip), " ") + "\n"
  {
    var d := ["-j", "DROP"];
    JoinCons("-j", ["DROP"]);
    JoinCons(ip, d);
    JoinCons("-s", [ip] + d);
    JoinCons("INPUT", ["-s"] + ([ip] + d));
    JoinCons("-A", ["INPUT"] + (["-s"] + ([ip] + d)));
    JoinCons("iptables", ["-A"] + (["INPUT"] + (["-s"] + ([ip] + d))));
    assert RuleWords(ip) == ["iptables"] + (["-A"] + (["INPUT"] + (["-s"] + ([ip] + d))));
    assert ["-j"] + ["DROP"] == d;
    assert Join(["DROP"], " ") == "DROP";
    hide Join;
    RuleText(ip);
    LineIs(ip);
  }

  lemma {:induction false} LineIs(ip: string)
    ensures Defense.Line(ip, Defense.FORMAT_IPTABLES) == "iptables -A INPUT -s " + ip + " -j DROP" + "\n"
  {
    ConcatAssociative("iptables -A INPUT -s " + ip, " -j DROP", "\n");
    assert " -j DROP" + "\n" == " -j DROP\n";
  }

  lemma {:induction false} JoinCons(w: string, ws: seq<string>)
    requires ws != []
    ensures Join([w] + ws, " ") == w + " " + Join(ws, " ")
  {
    assert ([w] + ws)[1..] == ws;
  }

  lemma {:induction false} RuleText(ip: string)
    ensures "iptables" + " " + ("-A" + " " + ("INPUT" + " " + ("-s" + " " + (ip + " " + ("-j" + " " + "DROP"))))) + "\n"
            == "iptables -A INPUT -s " + ip + " -j DROP" + "\n"
  {
    assert "-j" + " " + "DROP" == "-j DROP";
    PrefixWord("-s", "-s ", ip + " " + "-j DROP");
    PrefixWord("INPUT", "INPUT ", "-s " + (ip + " " + "-j DROP"));
    PrefixWord("-A", "-A ", "INPUT " + ("-s " + (ip + " " + "-j DROP")));
    PrefixWord("iptables", "iptables ", "-A " + ("INPUT " + ("-s " + (ip + " " + "-j DROP"))));
    assert "iptables " + ("-A " + ("INPUT " + "-s ")) == "iptables -A INPUT -s ";
    assert " " + "-j DROP" == " -j DROP";
    RuleRegroup("iptables ", "-A ", "INPUT ", "-s ", ip, " ", "-j DROP", "\n");
  }

  lemma {:induction false} PrefixWord(w: string, spaced: string, t: string)
    requires w + " " == spaced
    ensures w + " " + t == spaced + t
  {
  }

  lemma {:induction false} RuleRegroup(
    a: string, b: string, c: string, d: string, ip: string, e: string, f: string, g: string)
    ensures a + (b + (c + (d + (ip + e + f)))) + g == a + (b + (c + d)) + ip + (e + f) + g
  {
  }

  lemma {:induction false} RuleLineCommand(ip: string)
    requires IsWord(ip)
    ensures LineCommand(Join(RuleWords(ip), " ")) == Some(BlockCommand(ip))
  {
    var ws := RuleWords(ip);
    RuleWordsAreWords(ip);
    TrimOfJoin(ws);
    FieldsOfJoin(ws);
    JoinEnds(ws);
    RuleHead(ip);
    hide Join, Fields, TrimSpace, RuleWords;
    LineOfWords(Join(ws, " "), ws);
    BlockWords(ip);
  }

  lemma {:induction false} RuleHead(ip: string)
    ensures RuleWords(ip) != [] && RuleWords(ip)[0][0] == 'i'
  {
  }

  lemma {:induction false} LineOfWords(line: string, ws: seq<string>)
    requires TrimSpace(line) == line && line != "" && line[0] != '#' && Fields(line) == ws && ws != []
    ensures LineCommand(line) == Some(Command(ws[0], ws[1..], ""))
  {
    hide Fields, TrimSpace;
    assert "#"[0] == '#';
  }

  lemma {:induction false} BlockWords(ip: string)
    ensures BlockCommand(ip) == Command(RuleWords(ip)[0], RuleWords(ip)[1..], "")
  {
  }

  lemma {:induction false} CommentHasNoCommand(line: string)
    requires line == "" || line[0] == '#'
    ensures LineCommand(line) == None
  {
    if line != "" {
      TrimRightKeepsHead(line);
    }
  }

  /** The lines of a printed iptables script: the comment, the rule, and nothing after it. */
  lemma {:induction false} ScriptLines(comment: string, rule: string)
    requires '\n' !in comment && '\n' !in rule
    ensures Split(comment + "\n" + (rule + "\n") + "", '\n') == [comment, rule, ""]
  {
    var nl := ['\n'];
    SplitAtSeparator(comment, '\n', rule + nl);
    SplitAtSeparator(rule, '\n', "");
    assert comment + nl + (rule + nl) + "" == comment + nl + (rule + nl);
    assert rule + nl + "" == rule + nl;
    assert Split("", '\n') == [""];
  }

  lemma {:induction false} JoinHasNoNewline(ws: seq<string>)
    requires AllWords(ws)
    ensures '\n' !in Join(ws, " ")
  {
    if |ws| > 1 {
      JoinHasNoNewline(ws[1..]);
    }
  }

  lemma {:induction false} CommandsAreWords(runner: Runner, lines: seq<string>, n: nat)
    ensures forall c :: c in RunLines(runner, lines, n).0 ==> AllWords([c.name] + c.args) && c.stdin == ""
  {
    if lines != [] {
      CommandsAreWords(runner, lines[1..], n);
      CommandsAreWords(runner, lines[1..], n + 1);
      var cmd := LineCommand(lines[0]);
      if cmd.Some? {
        assert [cmd.value.name] + cmd.value.args == Fields(TrimSpace(lines[0]));
      }
    }
  }

  lemma {:induction false} CommentParts()
    ensures '\n' !in "# Generated by " && "# Generated by "[0] == '#'
    ensures '\n' !in "Shinkiro (Active " && '\n' !in "Defense Engine)"
  {
  }

  lemma {:induction false} NotInConcat(c: char, a: string, b: string)
    requires c !in a && c !in b
    ensures c !in a + b && (a != "" ==> (a + b)[0] == a[0])
  {
  }

  lemma {:induction false} CommentIsOneLine()
    ensures '\n' !in COMMENT && COMMENT[0] == '#'
  {
    CommentParts();
    NotInConcat('\n', "Shinkiro (Active ", "Defense Engine)");
    NotInConcat('\n', "# Generated by ", "Shinkiro (Active " + "Defense Engine)");
  }

  lemma {:induction false} RuleWordsAreWords(ip: string)
    requires IsWord(ip)
    ensures AllWords(RuleWords(ip))
  {
  }

  lemma {:induction false} WordRunsOnce(cfg: Setup, ip: string, n: nat)
    requires cfg.format == Defense.FORMAT_IPTABLES && IsWord(ip)
    ensures RunScript(cfg, Defense.Rules([ip], cfg.format), n).0 == [BlockCommand(ip)]
  {
    var rule := Join(RuleWords(ip), " ");
    CommentIsOneLine();
    RuleWordsAreWords(ip);
    RuleLineIsJoin(ip);
    JoinHasNoNewline(RuleWords(ip));
    ScriptLines(COMMENT, rule);
    OneRule(ip);
    CommentHasNoCommand(COMMENT);
    CommentHasNoCommand("");
    RuleLineCommand(ip);
    RunThree(cfg.runner, COMMENT, rule, n);
  }

  /**
    Whatever the runner answers, executing the printed iptables rule of ip runs exactly the one
    intended command, if and only if ip is non-empty and free of white space.
   */
  lemma {:induction false} PrintedRuleReadsBack(cfg: Setup, ip: string, n: nat)
    requires cfg.format == Defense.FORMAT_IPTABLES
    ensures RunScript(cfg, Defense.Rules([ip], cfg.format), n).0 == [BlockCommand(ip)] <==> IsWord(ip)
  {
    var script := Defense.Rules([ip], cfg.format);
    if IsWord(ip) {
      WordRunsOnce(cfg, ip, n);
    }
    if RunScript(cfg, script, n).0 == [BlockCommand(ip)] {
      CommandsAreWords(cfg.runner, Split(script, '\n'), n);
      var c := BlockCommand(ip);
      assert c in RunScript(cfg, script, n).0;
      assert ([c.name] + c.args)[4] == ip;
    }
  }

  lemma {:induction false} OneRule(ip: string)
    ensures Defense.Lines([ip], Defense.FORMAT_IPTABLES) == Defense.Line(ip, Defense.FORMAT_IPTABLES)
    ensures Defense.Header(Defense.FORMAT_IPTABLES) == COMMENT + "\n"
  {
    var none: seq<string> := [ip][..0];
    assert Defense.Lines(none, Defense.FORMAT_IPTABLES) == "";
  }

  lemma {:induction false} RunThree(runner: Runner, comment: string, rule: string, n: nat)
    requires LineCommand(comment) == None && LineCommand(rule).Some? && LineCommand("") == None
    ensures RunLines(runner, [comment, rule, ""], n).0 == [LineCommand(rule).value]
  {
    var lines := [comment, rule, ""];
    assert lines[1..] == [rule, ""] && [rule, ""][1..] == [""];
    assert [""][1..] == [];
    assert RunLines(runner, lines, n) == RunLines(runner, [rule, ""], n);
    assert RunLines(runner, [""], n + 1) == RunLines(runner, [], n + 1) == ([], None);
  }
}
