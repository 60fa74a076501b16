// Which file a name reaches, and what the commands that read files print of it.
module ShellFiles {
  import opened Basics
  import opened Text
  import opened Shell
  import opened ShellProofs

  // ---------- names ----------

  predicate NoDoubleSlash(p: string) {
    forall i :: 0 < i < |p| ==> p[i - 1] != '/' || p[i] != '/'
  }

  lemma {:induction false} HalveNothing(p: string)
    requires NoDoubleSlash(p)
    ensures HalveSlashes(p) == p
    decreases |p|
  {
    if |p| >= 2 {
      assert p[0] != '/' || p[1] != '/';
      assert p == [p[0]] + p[1..];
      HalveNothing(p[1..]);
    }
  }

  function Slashes(n: nat): string {
    seq(n, i => '/')
  }

  lemma {:induction false} HalveStep(p: string)
    ensures HalveSlashes("//" + p) == "/" + HalveSlashes(p)
    ensures p != "" && p[0] != '/' ==> HalveSlashes(p) == [p[0]] + HalveSlashes(p[1..])
    ensures p == "" || p[0] != '/' ==> HalveSlashes("/" + p) == "/" + HalveSlashes(p)
  {
    assert ("//" + p)[2..] == p;
    assert ("/" + p)[1..] == p;
    assert p != "" ==> ("/" + p)[1] == p[0];
    if |p| == 1 {
      assert HalveSlashes(p[1..]) == "";
    }
  }

  lemma {:induction false} TwoMore(n: nat, t: string)
    requires n >= 2
    ensures Slashes(n) + t == "//" + (Slashes(n - 2) + t)
    ensures Slashes((n + 1) / 2) + t == "/" + (Slashes((n - 1) / 2) + t)
  {
  }

  lemma {:induction false} FewSlashes(t: string)
    ensures Slashes(0) + t == t && Slashes(1) + t == "/" + t
  {
  }

  /** A run of slashes is halved, rounding up; everything else stays. */
  lemma {:induction false} SlashesHalved(n: nat, rest: string)
    requires rest != "" ==> rest[0] != '/'
    ensures HalveSlashes(Slashes(n) + rest) == Slashes((n + 1) / 2) + HalveSlashes(rest)
    ensures rest != "" ==> HalveSlashes(rest) == [rest[0]] + HalveSlashes(rest[1..])
  {
    hide *;
    HalveStep(rest);
    if n >= 2 {
      SlashesHalved(n - 2, rest);
      TwoMore(n, rest);
      TwoMore(n, HalveSlashes(rest));
      HalveStep(Slashes(n - 2) + rest);
      assert (n - 2 + 1) / 2 == (n - 1) / 2;
    } else {
      FewSlashes(rest);
      FewSlashes(HalveSlashes(rest));
    }
  }

  /** A path that begins at the root names itself, whatever the working directory. */
  lemma {:induction false} AbsoluteName(cwd: string, p: string)
    requires p != "" && p[0] == '/' && NoDoubleSlash(p)
    ensures ResolvePath(cwd, p) == p
  {
    assert "/" <= p;
    HalveNothing(p);
  }

  /** Any other name is looked up in the working directory. */
  lemma {:induction false} RelativeName(cwd: string, name: string)
    requires Rooted(cwd) && NoDoubleSlash(cwd) && (cwd != "/" ==> cwd[|cwd| - 1] != '/')
    requires name != "" && name[0] != '/' && NoDoubleSlash(name)
    ensures ResolvePath(cwd, name) == if cwd == "/" then "/" + name else cwd + "/" + name
  {
    assert !("/" <= name);
    var p := if cwd == "/" then "/" + name else cwd + "/" + name;
    assert Absolute(cwd, name) == p;
    var n := |p| - |name|;
    forall i | 0 < i < |p|
      ensures p[i - 1] != '/' || p[i] != '/'
    {
      assert i > n ==> p[i] == name[i - n] && p[i - 1] == name[i - n - 1];
      assert i < n - 1 ==> p[i] == cwd[i] && p[i - 1] == cwd[i - 1];
    }
    HalveNothing(p);
  }

  // ---------- one command with a name ----------

  lemma {:induction false} TwoWords(cmd: string, arg: string)
    requires IsWord(cmd) && IsWord(arg)
    ensures Fields(cmd + " " + arg) == [cmd, arg]
  {
    var ws := [cmd, arg];
    assert AllWords(ws);
    assert ws[1..] == [arg];
    assert Join(ws, " ") == cmd + " " + arg;
    FieldsOfJoin(ws);
  }

  lemma {:induction false} CommandWords()
    ensures IsWord("cat") && IsWord("touch") && IsWord("cd") && IsWord("head") && IsWord("tail")
  {
  }

  /** cat prints the file its name reaches, or says that there is none. */
  lemma {:induction false} CatPrints(cfg: Config, clock: string, s: State, name: string)
    requires IsWord(name)
    ensures var target := ResolvePath(s.cwd, name); var (s', reply) := Run(cfg, clock, s, "cat " + name);
      && s'.cwd == s.cwd && s'.files == s.files
      && reply == Printed(if target in s.files then s.files[target]
                          else "cat: " + name + ": No such file or directory\n")
  {
    CommandWords();
    TwoWords("cat", name);
    assert "cat" + " " + name == "cat " + name;
    RunPlain(cfg, clock, s, "cat " + name);
    CatReply(cfg, clock, s, name);
    hide Run, Fields, TrimSpace, ReplyTo, ResolvePath;
  }

  lemma {:induction false} CatReply(cfg: Config, clock: string, s: State, name: string)
    ensures var target := ResolvePath(s.cwd, name);
      ReplyTo(cfg, clock, s, ["cat", name]) ==
      Printed(if target in s.files then s.files[target] else "cat: " + name + ": No such file or directory\n")
    ensures Effect(s, ["cat", name]) == s
  {
    CatIsCat();
    hide ResolvePath, Echo, Ls, Head, Tail, Grep, HistoryListing;
  }

  lemma {:induction false} CatIsCat()
    ensures "cat" !in {"history", "id", "whoami", "hostname", "uname", "pwd", "cd", "uptime", "ps", "df", "free", "touch"}
  {
    assert |"history"| == 7 && |"id"| == 2 && |"whoami"| == 6 && |"hostname"| == 8 && |"uname"| == 5 && |"uptime"| == 6;
    assert |"touch"| == 5 && |"free"| == 4 && |"ps"| == 2 && |"df"| == 2 && |"cd"| == 2;
    assert "cat"[0] == 'c' && "pwd"[0] == 'p';
  }

  /** What a relative name reaches in a directory is what the whole path reaches from anywhere. */
  lemma {:induction false} CatAnywhere(cfg: Config, clock: string, s: State, dir: string, name: string)
    requires Rooted(dir) && dir != "/" && NoDoubleSlash(dir) && dir[|dir| - 1] != '/' && IsWord(dir)
    requires IsWord(name) && name[0] != '/' && NoDoubleSlash(name)
    requires dir + "/" + name in s.files
    ensures var there := Run(cfg, clock, s, "cd " + dir).0;
      && there.cwd == dir
      && Run(cfg, clock, there, "cat " + name).1 == Printed(s.files[dir + "/" + name])
      && Run(cfg, clock, s, "cat " + (dir + "/" + name)).1 == Printed(s.files[dir + "/" + name])
  {
    var path := dir + "/" + name;
    var there := Run(cfg, clock, s, "cd " + dir).0;
    RunCd(cfg, clock, s, dir);
    GoTo(s.cwd, dir);
    CdKeepsFiles(cfg, clock, s, dir);
    RelativeName(dir, name);
    PathIsWord(dir, name);
    AbsoluteName(s.cwd, path);
    CatPrints(cfg, clock, there, name);
    CatPrints(cfg, clock, s, path);
    hide Run, ResolvePath, Destination, IsWord, NoDoubleSlash;
  }

  lemma {:induction false} GoTo(cwd: string, dir: string)
    requires Rooted(dir) && dir[|dir| - 1] != '/'
    ensures Destination(cwd, ["cd", dir]) == dir
  {
    assert "/" <= dir;
    assert dir != "~" && dir != "..";
    assert TrimRightChar(dir, '/') == dir;
  }

  lemma {:induction false} CdKeepsFiles(cfg: Config, clock: string, s: State, dir: string)
    requires IsWord(dir)
    ensures Run(cfg, clock, s, "cd " + dir).0.files == s.files
  {
    CdFields(dir);
    RunPlain(cfg, clock, s, "cd " + dir);
    hide Run, Fields, TrimSpace, Destination, ReplyTo;
  }

  lemma {:induction false} PathIsWord(dir: string, name: string)
    requires Rooted(dir) && NoDoubleSlash(dir) && dir[|dir| - 1] != '/' && IsWord(dir)
    requires IsWord(name) && name[0] != '/' && NoDoubleSlash(name)
    ensures var p := dir + "/" + name; IsWord(p) && p[0] == '/' && NoDoubleSlash(p)
  {
    var p, n := dir + "/" + name, |dir|;
    forall i | 0 <= i < |p|
      ensures !IsSpace(p[i]) && (i > 0 ==> p[i - 1] != '/' || p[i] != '/')
    {
      assert i < n ==> p[i] == dir[i];
      assert 0 < i < n ==> p[i - 1] == dir[i - 1];
      assert i > n ==> p[i] == name[i - n - 1];
      assert i > n + 1 ==> p[i - 1] == name[i - n - 2];
    }
  }

  /** touch makes a file that cat finds empty, or leaves the file there is. */
  lemma {:induction false} TouchThenCat(cfg: Config, clock: string, s: State, name: string)
    requires IsWord(name)
    ensures var target := ResolvePath(s.cwd, name); var s' := Run(cfg, clock, s, "touch " + name).0;
      Run(cfg, clock, s', "cat " + name).1 == Printed(if target in s.files then s.files[target] else "")
  {
    CommandWords();
    TwoWords("touch", name);
    assert "touch" + " " + name == "touch " + name;
    RunPlain(cfg, clock, s, "touch " + name);
    var s' := Run(cfg, clock, s, "touch " + name).0;
    TouchEffect(s.(history := s.history + [TrimSpace("touch " + name)]), name);
    CatPrints(cfg, clock, s', name);
    hide Run, Fields, TrimSpace, ReplyTo, ResolvePath, Effect;
  }

  lemma {:induction false} TouchEffect(s: State, name: string)
    ensures var target := ResolvePath(s.cwd, name); var s' := Effect(s, ["touch", name]);
      s'.cwd == s.cwd && s'.files == if target in s.files then s.files else s.files[target := ""]
  {
    assert "touch"[0] == 't' && "cd"[0] == 'c';
    hide ResolvePath;
  }

  // ---------- lines ----------

  predicate AllOneLine(lines: seq<string>) {
    forall i :: 0 <= i < |lines| ==> '\n' !in lines[i]
  }

  lemma {:induction false} SplitOneLines(s: string)
    ensures AllOneLine(Split(s, '\n')) && Split(s, '\n') != []
  {
    if s != "" {
      SplitOneLines(s[1..]);
    }
  }

  lemma {:induction false} SplitWhole(a: string)
    requires '\n' !in a
    ensures Split(a + "\n", '\n') == [a, ""]
  {
    SplitAtSeparator(a, '\n', "");
    assert a + ['\n'] + "" == a + "\n";
    assert Split("", '\n') == [""];
  }

  /** Lines printed one after the other split into those lines. */
  lemma {:induction false} LinesRead(lines: seq<string>)
    requires AllOneLine(lines) && lines != []
    ensures Split(Join(lines, "\n") + "\n", '\n') == lines + [""]
  {
    if |lines| == 1 {
      SplitWhole(lines[0]);
    } else {
      var rest := Join(lines[1..], "\n") + "\n";
      LinesRead(lines[1..]);
      SplitAtSeparator(lines[0], '\n', rest);
      assert Join(lines, "\n") + "\n" == lines[0] + ['\n'] + rest;
      hide Split, Join;
      assert [lines[0]] + (lines[1..] + [""]) == lines + [""];
    }
  }

  /** head prints the first ten lines, or all there are. */
  lemma {:induction false} HeadLines(content: string)
    ensures var lines := Split(content, '\n');
      Split(Head(content), '\n') == lines[..Min(10, |lines|)] + [""]
  {
    SplitOneLines(content);
    LinesRead(Split(content, '\n')[..Min(10, |Split(content, '\n')|)]);
    hide Split, Join;
  }

  /** tail prints the last ten lines, or all there are, empty ones at the end aside. */
  lemma {:induction false} TailLines(content: string)
    ensures var lines := Split(TrimRightChar(content, '\n'), '\n');
      Split(Tail(content), '\n') == lines[|lines| - Min(10, |lines|)..] + [""]
  {
    var lines := Split(TrimRightChar(content, '\n'), '\n');
    SplitOneLines(TrimRightChar(content, '\n'));
    LinesRead(lines[|lines| - Min(10, |lines|)..]);
    hide Split, Join, TrimRightChar;
  }

  lemma {:induction false} MatchingLines(lines: seq<string>, pattern: string)
    ensures forall l :: l in Matching(lines, pattern) <==> l in lines && Contains(l, pattern)
    ensures AllOneLine(lines) ==> AllOneLine(Matching(lines, pattern))
  {
    hide Contains;
    if lines != [] {
      MatchingLines(lines[1..], pattern);
      assert forall l :: l in lines <==> l == lines[0] || l in lines[1..];
    }
  }

  /** grep prints exactly the lines that contain the pattern, or nothing. */
  lemma {:induction false} GrepLines(content: string, pattern: string)
    ensures Grep(content, pattern) == "" <==> forall l :: l in Split(content, '\n') ==> !Contains(l, pattern)
    ensures Grep(content, pattern) != "" ==>
      var found := Split(Grep(content, pattern), '\n');
      found != [] && found[|found| - 1] == "" &&
      forall l :: l in found[..|found| - 1] <==> l in Split(content, '\n') && Contains(l, pattern)
  {
    var lines := Split(content, '\n');
    var found := Matching(lines, pattern);
    SplitOneLines(content);
    MatchingLines(lines, pattern);
    hide Split, Contains, Matching;
    if found != [] {
      assert found[0] in found;
      LinesRead(found);
      assert (found + [""])[..|found|] == found;
    }
  }

  // ---------- small replies ----------

  lemma {:induction false} ShortReplies(cfg: Config, clock: string, s: State)
    ensures ReplyTo(cfg, clock, s, ["pwd"]) == Printed(s.cwd + "\n")
    ensures ReplyTo(cfg, clock, s, ["whoami"]) == Printed(cfg.username + "\n")
    ensures ReplyTo(cfg, clock, s, ["hostname"]) == Printed(cfg.hostname + "\n")
  {
    assert |"pwd"| == 3 && |"whoami"| == 6 && |"hostname"| == 8 && |"history"| == 7 && |"id"| == 2 && |"uname"| == 5;
    hide ResolvePath, Echo, Ls, Head, Tail, Grep, HistoryListing;
  }

  /** echo prints its words with single spaces, or the variable that a dollar sign names. */
  lemma {:induction false} EchoPrints(cfg: Config, words: seq<string>)
    requires words != []
    ensures !HasPrefix(words[0], "$") ==> Echo(cfg, ["echo"] + words) == Join(words, " ") + "\n"
    ensures HasPrefix(words[0], "$") ==>
      var name := words[0][1..];
      Echo(cfg, ["echo"] + words) == (if name in cfg.env then cfg.env[name] else "") + "\n"
    ensures Echo(cfg, ["echo"]) == "\n"
  {
    assert (["echo"] + words)[1..] == words && (["echo"] + words)[1] == words[0];
    hide Join;
  }

  /** Right-aligned: nothing but spaces in front, up to the width. */
  lemma {:induction false} PadAligns(s: string, width: nat) returns (pad: string)
    ensures PadLeft(s, width) == pad + s && (forall i :: 0 <= i < |pad| ==> pad[i] == ' ')
    ensures |PadLeft(s, width)| == if |s| < width then width else |s|
    decreases width - |s|
  {
    if |s| >= width {
      pad := "";
    } else {
      pad := PadAligns(" " + s, width);
      assert pad + (" " + s) == pad + " " + s;
      pad := pad + " ";
    }
  }

  /** The history is listed a line at a time: its number, right-aligned in four columns, and the line itself. */
  lemma {:induction false} HistoryLine(h: seq<string>, line: string) returns (pad: string)
    ensures HistoryListing(h + [line]) ==
            HistoryListing(h) + ("  " + (pad + Itoa(|h| + 1)) + "  " + (line + "\n"))
    ensures (forall i :: 0 <= i < |pad| ==> pad[i] == ' ')
    ensures |pad + Itoa(|h| + 1)| == if |Itoa(|h| + 1)| < 4 then 4 else |Itoa(|h| + 1)|
  {
    pad := PadAligns(Itoa(|h| + 1), 4);
    ListingLast(h, line);
    hide HistoryListing, Itoa, PadLeft;
  }

  /** find and env list every file and every variable. */
  lemma {:induction false} Listings(cfg: Config, clock: string, s: State, x: string)
    ensures ReplyTo(cfg, clock, s, ["find"]) == Listing(s.files.Keys)
    ensures ReplyTo(cfg, clock, s, ["env"]).Listing?
    ensures x in ReplyTo(cfg, clock, s, ["env"]).lines <==> exists k :: k in cfg.env && x == k + "=" + cfg.env[k]
  {
    assert |"find"| == 4 && |"env"| == 3 && |"history"| == 7 && |"free"| == 4 && |"head"| == 4;
    assert "find"[0] == 'f' && "free"[1] == 'r' && "head"[0] == 'h' && "env"[0] == 'e' && "pwd"[0] == 'p' && "cat"[0] == 'c';
    hide ResolvePath, Echo, Ls, Head, Tail, Grep, HistoryListing;
  }

  /** cd alone, or to a tilde, leads home. */
  lemma {:induction false} HomeIsRoot(cwd: string)
    ensures Destination(cwd, ["cd"]) == "/root" && Destination(cwd, ["cd", "~"]) == "/root"
  {
  }

  /** The commands the decoy knows. */
  const KNOWN := {
    "id", "whoami", "hostname", "uname", "pwd", "cd", "uptime", "ps", "df", "free", "cat", "head", "find", "env", "echo",
    "ls", "tail", "grep", "touch", "mkdir", "sudo", "curl", "wget", "history", "exit", "logout"}

  /** Any other command is not found. */
  lemma {:induction false} OthersNotFound(cfg: Config, clock: string, s: State, parts: seq<string>)
    requires parts != [] && parts[0] !in KNOWN
    ensures ReplyTo(cfg, clock, s, parts) == Printed("bash: " + parts[0] + ": command not found\n")
    ensures Effect(s, parts) == s
  {
    NotKnown(parts[0]);
    hide KNOWN, ResolvePath, Echo, Ls, Head, Tail, Grep, HistoryListing, ReadReply;
  }

  lemma {:induction false} NotKnown(c: string)
    requires c !in KNOWN
    ensures c != "id" && c != "whoami" && c != "hostname" && c != "uname" && c != "pwd" && c != "cd" && c != "uptime"
    ensures c != "ps" && c != "df" && c != "free" && c != "cat" && c != "head" && c != "find" && c != "env" && c != "echo"
    ensures c != "ls" && c != "tail" && c != "grep" && c != "touch" && c != "mkdir" && c != "sudo" && c != "curl"
    ensures c != "wget" && c != "history" && c != "exit" && c != "logout"
  {
  }
}
