// sudo is transparent, cd and cd .. undo each other, and every session stays inside the tree.
module ShellProofs {
  import opened Basics
  import opened Text
  import opened Shell

  function RunAll(cfg: Config, clock: string, s: State, lines: seq<string>): State {
    if lines == [] then s
    else Run(cfg, clock, RunAll(cfg, clock, s, lines[..|lines| - 1]), lines[|lines| - 1]).0
  }

  // ---------- sudo ----------

  function Sudos(k: nat): seq<string> {
    if k == 0 then [] else ["sudo"] + Sudos(k - 1)
  }

  /** The lines k nested sudo calls record after the first one. */
  function Nested(k: nat, cmd: seq<string>): seq<string> {
    if k == 0 then [] else [Join(Sudos(k - 1) + cmd, " ")] + Nested(k - 1, cmd)
  }

  /** All that a command other than history can see: everything but the history. */
  predicate SameScene(a: State, b: State) {
    a.cwd == b.cwd && a.files == b.files
  }

  lemma {:induction false} ReplyIgnoresHistory(cfg: Config, clock: string, a: State, b: State, parts: seq<string>)
    requires SameScene(a, b) && parts != [] && parts[0] != "history"
    ensures ReplyTo(cfg, clock, a, parts) == ReplyTo(cfg, clock, b, parts)
  {
    hide SceneReply;
  }

  lemma {:induction false} EffectIgnoresHistory(a: State, b: State, parts: seq<string>)
    requires SameScene(a, b) && parts != []
    ensures SameScene(Effect(a, parts), Effect(b, parts))
    ensures Effect(a, parts).history == a.history
  {
    hide Destination;
  }

  /** What one line does when its fields are not a sudo with arguments. */
  lemma {:induction false} RunPlain(cfg: Config, clock: string, s: State, line: string)
    requires var f := Fields(line); f != [] && (f[0] != "sudo" || |f| == 1)
    ensures var recorded := s.(history := s.history + [TrimSpace(line)]);
      Run(cfg, clock, s, line) == (Effect(recorded, Fields(line)), ReplyTo(cfg, clock, recorded, Fields(line)))
  {
    FieldsOfTrim(line);
    hide Effect, ReplyTo, Fields, TrimSpace;
  }

  lemma {:induction false} RunSudo(cfg: Config, clock: string, s: State, line: string)
    requires var f := Fields(line); |f| > 1 && f[0] == "sudo"
    ensures Run(cfg, clock, s, line) ==
            Run(cfg, clock, s.(history := s.history + [TrimSpace(line)]), Join(Fields(line)[1..], " "))
  {
    FieldsOfTrim(line);
    hide Effect, ReplyTo, Fields, TrimSpace, Join;
  }

  lemma {:induction false} SudoOutcome(cfg: Config, clock: string, s: State, line: string, k: nat, cmd: seq<string>)
    requires Fields(line) == Sudos(k) + cmd && cmd != [] && cmd[0] != "sudo"
    ensures var h := s.history + [TrimSpace(line)] + Nested(k, cmd);
      Run(cfg, clock, s, line) == (Effect(s.(history := h), cmd), ReplyTo(cfg, clock, s.(history := h), cmd))
    decreases k
  {
    hide Effect, ReplyTo, Run, Fields, TrimSpace, Join;
    if k == 0 {
      assert Sudos(0) + cmd == cmd;
      assert s.history + [TrimSpace(line)] + [] == s.history + [TrimSpace(line)];
      RunPlain(cfg, clock, s, line);
    } else {
      var rest := Sudos(k - 1) + cmd;
      assert Sudos(k) + cmd == ["sudo"] + rest;
      assert Fields(line)[1..] == rest;
      SuffixWords(Fields(line), rest);
      FieldsOfJoin(rest);
      TrimOfJoin(rest);
      RunSudo(cfg, clock, s, line);
      var next := s.(history := s.history + [TrimSpace(line)]);
      SudoOutcome(cfg, clock, next, Join(rest, " "), k - 1, cmd);
      NestedHistory(s.history, TrimSpace(line), k, cmd);
    }
  }

  lemma {:induction false} SuffixWords(f: seq<string>, rest: seq<string>)
    requires AllWords(f) && f != [] && f[1..] == rest
    ensures AllWords(rest)
  {
  }

  lemma {:induction false} NestedHistory(h: seq<string>, line: string, k: nat, cmd: seq<string>)
    requires k > 0
    ensures h + [line] + [Join(Sudos(k - 1) + cmd, " ")] + Nested(k - 1, cmd) == h + [line] + Nested(k, cmd)
  {
  }

  lemma {:induction false} NestedLength(k: nat, cmd: seq<string>)
    ensures |Nested(k, cmd)| == k
  {
    if k > 0 {
      NestedLength(k - 1, cmd);
    }
  }

  /**
    Main result. For a line whose fields are k copies of sudo followed by a command other than sudo and
    history, the reply, the working directory and the files are those of the bare command, and the
    history grows by k + 1 lines: the line as typed, then each nested command joined by single spaces.
   */
  lemma {:induction false} SudoTransparent(
    cfg: Config, clock: string, s: State, line: string, bare: string, k: nat, cmd: seq<string>)
    requires Fields(line) == Sudos(k) + cmd && Fields(bare) == cmd
    requires cmd != [] && cmd[0] != "sudo" && cmd[0] != "history"
    ensures var (a, replyA) := Run(cfg, clock, s, line); var (b, replyB) := Run(cfg, clock, s, bare);
      && replyA == replyB && a.cwd == b.cwd && a.files == b.files
      && a.history == s.history + [TrimSpace(line)] + Nested(k, cmd)
      && |a.history| == |s.history| + k + 1
  {
    hide Effect, ReplyTo, Run, Fields, TrimSpace, Join;
    SudoOutcome(cfg, clock, s, line, k, cmd);
    RunPlain(cfg, clock, s, bare);
    NestedLength(k, cmd);
    var x := s.(history := s.history + [TrimSpace(line)] + Nested(k, cmd));
    var y := s.(history := s.history + [TrimSpace(bare)]);
    ReplyIgnoresHistory(cfg, clock, x, y, cmd);
    EffectIgnoresHistory(x, y, cmd);
  }

  // The one command that can tell is history: the first line it lists for this call begins with the s of
  // sudo in one listing and with its own h in the other.

  lemma {:induction false} TrimmedHead(line: string)
    requires Fields(line) != []
    ensures TrimSpace(line) != "" && TrimSpace(line)[0] == Fields(line)[0][0]
  {
    var t := TrimSpace(line);
    FieldsOfTrim(line);
    FieldsOfTrimLeft(line);
    assert TrimLeft(line) != "";
    TrimRightKeepsHead(TrimLeft(line));
    assert !IsSpace(t[0]);
    var n := WordLength(t);
    assert Fields(t)[0] == t[..n] && n > 0;
  }

  lemma {:induction false} ListingGrows(a: seq<string>, b: seq<string>)
    ensures HistoryListing(a) <= HistoryListing(a + b)
  {
    hide HistoryListing, LineLabel;
    if b == [] {
      assert a + b == a;
    } else {
      var init, last := b[..|b| - 1], b[|b| - 1];
      ListingGrows(a, init);
      SplitLast(b);
      ConcatAssociative(a, init, [last]);
      ListingLast(a + init, last);
    }
  }

  function LineLabel(n: nat): string {
    "  " + PadLeft(Itoa(n), 4) + "  "
  }

  lemma {:induction false} ListingLast(h: seq<string>, line: string)
    ensures HistoryListing(h + [line]) == HistoryListing(h) + (LineLabel(|h| + 1) + (line + "\n"))
  {
    DropLast(h, line);
    var l, p := HistoryListing(h), PadLeft(Itoa(|h| + 1), 4);
    hide PadLeft, Itoa;
    assert HistoryListing(h + [line]) == l + "  " + p + "  " + line + "\n";
    assert l + "  " + p + "  " + line + "\n" == l + (("  " + p + "  ") + (line + "\n"));
  }

  /** Listings that first differ in the first character of a line differ. */
  lemma {:induction false} ListingsDiffer(h: seq<string>, x: string, xs: seq<string>, y: string)
    requires x != "" && y != "" && x[0] != y[0]
    ensures HistoryListing(h + [x] + xs) != HistoryListing(h + [y])
  {
    ListingGrows(h + [x], xs);
    ListingLast(h, x);
    ListingLast(h, y);
    var at := |HistoryListing(h)| + |LineLabel(|h| + 1)|;
    hide HistoryListing, LineLabel;
    assert HistoryListing(h + [x])[at] == x[0];
    assert HistoryListing(h + [y])[at] == y[0];
  }

  lemma {:induction false} SudoFirst(k: nat, cmd: seq<string>)
    requires k > 0
    ensures (Sudos(k) + cmd)[0] == "sudo"
  {
  }

  /** Under at least one sudo the reply is the bare command's if and only if the command is not history. */
  lemma {:induction false} SudoShowsExactly(
    cfg: Config, clock: string, s: State, line: string, bare: string, k: nat, cmd: seq<string>)
    requires Fields(line) == Sudos(k) + cmd && Fields(bare) == cmd
    requires k > 0 && cmd != [] && cmd[0] != "sudo"
    ensures Run(cfg, clock, s, line).1 == Run(cfg, clock, s, bare).1 <==> cmd[0] != "history"
  {
    hide Effect, Run, Fields, TrimSpace, Join, HistoryListing;
    if cmd[0] != "history" {
      SudoTransparent(cfg, clock, s, line, bare, k, cmd);
    } else {
      SudoOutcome(cfg, clock, s, line, k, cmd);
      RunPlain(cfg, clock, s, bare);
      SudoFirst(k, cmd);
      TrimmedHead(line);
      TrimmedHead(bare);
      assert "sudo"[0] == 's' && "history"[0] == 'h';
      ListingsDiffer(s.history, TrimSpace(line), Nested(k, cmd), TrimSpace(bare));
    }
  }

  // ---------- every session ----------

  predicate Rooted(cwd: string) {
    cwd != "" && cwd[0] == '/'
  }

  lemma {:induction false} DestinationRooted(cwd: string, parts: seq<string>)
    requires Rooted(cwd)
    ensures Rooted(Destination(cwd, parts))
  {
    hide TrimRightChar;
    assert "/root"[0] == '/';
  }

  /** Nothing a session does loses a file or changes its content. */
  ghost predicate Keeps(before: map<string, string>, after: map<string, string>) {
    forall p :: p in before ==> p in after && after[p] == before[p]
  }

  lemma {:induction false} EffectSafe(s: State, parts: seq<string>)
    requires Rooted(s.cwd) && parts != []
    ensures Rooted(Effect(s, parts).cwd) && Keeps(s.files, Effect(s, parts).files)
  {
    DestinationRooted(s.cwd, parts);
    hide Destination, ResolvePath;
  }

  lemma {:induction false} RunSafe(cfg: Config, clock: string, s: State, line: string)
    requires Rooted(s.cwd)
    ensures var s' := Run(cfg, clock, s, line).0;
      Rooted(s'.cwd) && Keeps(s.files, s'.files) && s.history <= s'.history
    decreases |Fields(line)|
  {
    FieldsOfTrim(line);
    var f := Fields(line);
    hide Effect, ReplyTo, Join;
    if f != [] {
      var recorded := s.(history := s.history + [TrimSpace(line)]);
      if f[0] == "sudo" && |f| > 1 {
        RunSudo(cfg, clock, s, line);
        FieldsOfJoin(f[1..]);
        RunSafe(cfg, clock, recorded, Join(f[1..], " "));
      } else {
        RunPlain(cfg, clock, s, line);
        EffectSafe(recorded, f);
        EffectIgnoresHistory(recorded, recorded, f);
      }
    }
  }

  /**
    Main result. In every state a session can reach, the working directory is non-empty and absolute,
    every planted or touched file is still there unchanged, and the history has only grown.
   */
  lemma {:induction false} SessionSafe(cfg: Config, clock: string, s: State, lines: seq<string>)
    requires Rooted(s.cwd)
    ensures var s' := RunAll(cfg, clock, s, lines);
      Rooted(s'.cwd) && Keeps(s.files, s'.files) && s.history <= s'.history
  {
    hide Run;
    if lines != [] {
      var init := lines[..|lines| - 1];
      SessionSafe(cfg, clock, s, init);
      RunSafe(cfg, clock, RunAll(cfg, clock, s, init), lines[|lines| - 1]);
    }
  }

  // ---------- cd and cd .. ----------

  /** A directory name that cd takes literally. */
  predicate PlainName(name: string) {
    IsWord(name) && '/' !in name && name != ".." && name != "~"
  }

  function Child(cwd: string, name: string): string {
    if cwd == "/" then "/" + name else cwd + "/" + name
  }

  lemma {:induction false} CdFields(arg: string)
    requires IsWord(arg)
    ensures Fields("cd " + arg) == ["cd", arg]
  {
    var ws := ["cd", arg];
    assert ws[1..] == [arg];
    assert Join(ws, " ") == "cd" + " " + arg == "cd " + arg;
    FieldsOfJoin(ws);
  }

  lemma {:induction false} RunCd(cfg: Config, clock: string, s: State, arg: string)
    requires IsWord(arg)
    ensures Run(cfg, clock, s, "cd " + arg).0.cwd == Destination(s.cwd, ["cd", arg])
  {
    CdFields(arg);
    RunPlain(cfg, clock, s, "cd " + arg);
    hide Run, Fields, TrimSpace, Destination, ReplyTo;
  }

  lemma {:induction false} PlainDestination(cwd: string, name: string)
    requires Rooted(cwd) && PlainName(name)
    ensures Destination(cwd, ["cd", name]) == Child(cwd, name)
  {
    var dest := Absolute(cwd, name);
    assert name[0] != '/';
    assert dest[|dest| - 1] == name[|name| - 1] != '/';
    assert TrimRightChar(dest, '/') == dest;
  }

  lemma {:induction false} CdDown(cfg: Config, clock: string, s: State, name: string)
    requires Rooted(s.cwd) && PlainName(name)
    ensures Run(cfg, clock, s, "cd " + name).0.cwd == Child(s.cwd, name)
  {
    hide Run, Destination, Child;
    RunCd(cfg, clock, s, name);
    PlainDestination(s.cwd, name);
  }

  lemma {:induction false} CdUp(cfg: Config, clock: string, s: State)
    ensures Run(cfg, clock, s, "cd ..").0.cwd == Parent(s.cwd)
  {
    assert "cd " + ".." == "cd ..";
    RunCd(cfg, clock, s, "..");
    hide Run, Parent;
  }

  /** Going up undoes going down, even where the directory holds doubled or trailing slashes. */
  lemma {:induction false} ParentOfChild(cwd: string, name: string)
    requires Rooted(cwd) && '/' !in name && name != ""
    ensures Parent(Child(cwd, name)) == cwd
  {
    var path := Child(cwd, name);
    var at := |path| - |name| - 1;
    assert path[at] == '/' && path[at + 1..] == name;
    forall j | at < j < |path|
      ensures path[j] != '/'
    {
      assert path[j] == name[j - at - 1];
    }
    assert LastIndex(path, '/') == at;
    assert path != "/";
  }

  function Downs(names: seq<string>): seq<string> {
    seq(|names|, i requires 0 <= i < |names| => "cd " + names[i])
  }

  function Ups(n: nat): seq<string> {
    seq(n, i => "cd ..")
  }

  function Climb(cwd: string, n: nat): string {
    if n == 0 then cwd else Parent(Climb(cwd, n - 1))
  }

  function Descend(cwd: string, names: seq<string>): string {
    if names == [] then cwd else Child(Descend(cwd, names[..|names| - 1]), names[|names| - 1])
  }

  lemma {:induction false} RunAllConcat(cfg: Config, clock: string, s: State, a: seq<string>, b: seq<string>)
    ensures RunAll(cfg, clock, s, a + b) == RunAll(cfg, clock, RunAll(cfg, clock, s, a), b)
  {
    hide Run;
    if b == [] {
      assert a + b == a;
    } else {
      RunAllConcat(cfg, clock, s, a, b[..|b| - 1]);
      assert (a + b)[..|a + b| - 1] == a + b[..|b| - 1];
    }
  }

  lemma {:induction false} RunUps(cfg: Config, clock: string, s: State, n: nat)
    ensures RunAll(cfg, clock, s, Ups(n)).cwd == Climb(s.cwd, n)
  {
    hide Run, Parent;
    if n > 0 {
      RunUps(cfg, clock, s, n - 1);
      assert Ups(n)[..n - 1] == Ups(n - 1);
      CdUp(cfg, clock, RunAll(cfg, clock, s, Ups(n - 1)));
    }
  }

  lemma {:induction false} RunDowns(cfg: Config, clock: string, s: State, names: seq<string>)
    requires Rooted(s.cwd) && forall i :: 0 <= i < |names| ==> PlainName(names[i])
    ensures RunAll(cfg, clock, s, Downs(names)).cwd == Descend(s.cwd, names)
    ensures Rooted(Descend(s.cwd, names))
  {
    hide Run;
    if names != [] {
      var init := names[..|names| - 1];
      RunDowns(cfg, clock, s, init);
      assert Downs(names)[..|names| - 1] == Downs(init);
      CdDown(cfg, clock, RunAll(cfg, clock, s, Downs(init)), names[|names| - 1]);
    }
  }

  lemma {:induction false} ClimbStart(cwd: string, n: nat)
    ensures Climb(cwd, n + 1) == Climb(Parent(cwd), n)
  {
    hide Parent;
    if n > 0 {
      ClimbStart(cwd, n - 1);
    }
  }

  lemma {:induction false} ClimbUndoesDescend(cwd: string, names: seq<string>)
    requires Rooted(cwd) && forall i :: 0 <= i < |names| ==> PlainName(names[i])
    ensures Climb(Descend(cwd, names), |names|) == cwd && Rooted(Descend(cwd, names))
  {
    if names != [] {
      var init, name := names[..|names| - 1], names[|names| - 1];
      ClimbUndoesDescend(cwd, init);
      ParentOfChild(Descend(cwd, init), name);
      ClimbStart(Descend(cwd, names), |init|);
    }
  }

  /**
    Main result. From any absolute directory, n cd commands with plain names followed by n times cd ..
    end where they began.
   */
  lemma {:induction false} CdRoundTrip(cfg: Config, clock: string, s: State, names: seq<string>)
    requires Rooted(s.cwd) && forall i :: 0 <= i < |names| ==> PlainName(names[i])
    ensures RunAll(cfg, clock, s, Downs(names) + Ups(|names|)).cwd == s.cwd
  {
    hide Run, PlainName;
    RunAllConcat(cfg, clock, s, Downs(names), Ups(|names|));
    RunDowns(cfg, clock, s, names);
    RunUps(cfg, clock, RunAll(cfg, clock, s, Downs(names)), |names|);
    ClimbUndoesDescend(s.cwd, names);
  }

  lemma {:induction false} ParentShorter(cwd: string)
    requires Rooted(cwd)
    ensures Rooted(Parent(cwd)) && (Parent(cwd) == "/" || |Parent(cwd)| < |cwd|)
  {
    assert LastIndex(cwd, '/') >= 0;
  }

  lemma {:induction false} ClimbReachesRoot(cwd: string, n: nat)
    requires Rooted(cwd)
    ensures Climb(cwd, n) == "/" || |Climb(cwd, n)| + n <= |cwd|
    ensures Rooted(Climb(cwd, n))
  {
    if n > 0 {
      ClimbReachesRoot(cwd, n - 1);
      ParentShorter(Climb(cwd, n - 1));
    }
  }

  /** |cwd| times cd .. - one fewer, for that matter - always reach the root, and stay there. */
  lemma {:induction false} UpReachesRoot(cfg: Config, clock: string, s: State, n: nat)
    requires Rooted(s.cwd) && n >= |s.cwd| - 1
    ensures RunAll(cfg, clock, s, Ups(n)).cwd == "/"
  {
    RunUps(cfg, clock, s, n);
    ClimbReachesRoot(s.cwd, n);
    hide Run, Climb;
  }
}
