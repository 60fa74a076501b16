// The decoy shell: working directory, history and an in-memory file table.
module Shell {
  import opened Basics
  import opened Text

  /** Replies are text, one of the fixed texts by name, or lines whose order Go's map iteration leaves open. */
  datatype Reply = Printed(text: string) | Canned(name: string) | Listing(lines: set<string>)

  datatype Config = Config(username: string, hostname: string, env: map<string, string>)

  datatype State = State(cwd: string, history: seq<string>, files: map<string, string>)

  // ---------- paths ----------

  /** strings.ReplaceAll(p, "//", "/"): one left-to-right pass. */
  function HalveSlashes(p: string): string {
    if |p| < 2 then p
    else if p[0] == '/' && p[1] == '/' then "/" + HalveSlashes(p[2..])
    else [p[0]] + HalveSlashes(p[1..])
  }

  function Absolute(cwd: string, p: string): string {
    if HasPrefix(p, "/") then p else if cwd == "/" then "/" + p else cwd + "/" + p
  }

  function ResolvePath(cwd: string, p: string): string {
    HalveSlashes(Absolute(cwd, p))
  }

  /** Where `cd ..` leads. */
  function Parent(cwd: string): string {
    if cwd == "/" then cwd
    else
      var lastSlash := LastIndex(cwd, '/');
      if lastSlash == 0 then "/" else if lastSlash > 0 then cwd[..lastSlash] else cwd
  }

  function Destination(cwd: string, parts: seq<string>): string {
    if |parts| < 2 || parts[1] == "~" then "/root"
    else if parts[1] == ".." then Parent(cwd)
    else
      var dest := TrimRightChar(Absolute(cwd, parts[1]), '/');
      if dest == "" then "/" else dest
  }

  // ---------- text commands ----------

  function Head(content: string): string {
    var lines := Split(content, '\n');
    Join(lines[..Min(10, |lines|)], "\n") + "\n"
  }

  function Tail(content: string): string {
    var lines := Split(TrimRightChar(content, '\n'), '\n');
    Join(lines[|lines| - Min(10, |lines|)..], "\n") + "\n"
  }

  function Matching(lines: seq<string>, pattern: string): seq<string> {
    if lines == [] then []
    else (if Contains(lines[0], pattern) then [lines[0]] else []) + Matching(lines[1..], pattern)
  }

  function Grep(content: string, pattern: string): string {
    var found := Matching(Split(content, '\n'), pattern);
    if found == [] then "" else Join(found, "\n") + "\n"
  }

  function PadLeft(s: string, width: nat): string
    decreases width - |s|
  {
    if |s| >= width then s else PadLeft(" " + s, width)
  }

  function HistoryListing(history: seq<string>): string {
    if history == [] then ""
    else
      var n := |history|;
      HistoryListing(history[..n - 1]) + "  " + PadLeft(Itoa(n), 4) + "  " + history[n - 1] + "\n"
  }

  function Echo(cfg: Config, parts: seq<string>): string {
    if |parts| <= 1 then "\n"
    else if HasPrefix(parts[1], "$") then
      var name := parts[1][1..];
      if name in cfg.env then cfg.env[name] + "\n" else "\n"
    else Join(parts[1..], " ") + "\n"
  }

  function Ls(cwd: string, parts: seq<string>): string
    requires parts != []
  {
    var isLong := exists i | 1 <= i < |parts| :: Contains(parts[i], "l");
    if isLong then (if cwd == "/root" then "ls -l /root" else "ls -l") else (if cwd == "/root" then "ls /root" else "ls")
  }

  /** A reader of one file: what it prints for content, or its complaint when target is missing. */
  function ReadReply(cwd: string, files: map<string, string>, arg: string, f: string -> string, complaint: string): Reply {
    var target := ResolvePath(cwd, arg);
    Printed(if target in files then f(files[target]) else complaint)
  }

  /** The reply of every command but history; cd, touch and sudo with arguments also act. */
  function SceneReply(cfg: Config, clock: string, cwd: string, files: map<string, string>, parts: seq<string>): Reply
    requires parts != []
  {
    var n, binary := |parts|, parts[0];
    if binary == "id" then Canned(if cfg.username == "root" then "id root" else "id admin")
    else if binary == "whoami" then Printed(cfg.username + "\n")
    else if binary == "hostname" then Printed(cfg.hostname + "\n")
    else if binary == "uname" then
      if n > 1 && parts[1] == "-a" then
        Printed("Linux " + cfg.hostname +
                " 6.6.137+deb12u1-amd64 #1 SMP PREEMPT_DYNAMIC Debian 6.6.137-1 (2026-08-15) x86_64 GNU/Linux\n")
      else Printed("Linux\n")
    else if binary == "pwd" then Printed(cwd + "\n")
    else if binary == "cd" then Printed("")
    else if binary == "uptime" then Printed(" " + clock + " up 42 days,  3:14,  1 user,  load average: 0.12, 0.08, 0.05\n")
    else if binary == "ps" || binary == "df" || binary == "free" then Canned(binary)
    else if binary == "cat" then
      if n < 2 then Printed("cat: missing file operand\n")
      else ReadReply(cwd, files, parts[1], c => c, "cat: " + parts[1] + ": No such file or directory\n")
    else if binary == "head" then
      if n < 2 then Printed("head: missing file operand\n")
      else ReadReply(cwd, files, parts[n - 1], c => Head(c),
                     "head: cannot open '" + parts[n - 1] + "' for reading: No such file or directory\n")
    else if binary == "find" then Listing(files.Keys)
    else if binary == "env" then Listing(set k | k in cfg.env :: k + "=" + cfg.env[k])
    else if binary == "echo" then Printed(Echo(cfg, parts))
    else if binary == "ls" then Canned(Ls(cwd, parts))
    else if binary == "tail" then
      if n < 2 then Printed("tail: missing file operand\n")
      else ReadReply(cwd, files, parts[n - 1], c => Tail(c),
                     "tail: cannot open '" + parts[n - 1] + "' for reading: No such file or directory\n")
    else if binary == "grep" then
      if n < 3 then Printed("Usage: grep [PATTERN] [FILE]\n")
      else ReadReply(cwd, files, parts[2], c => Grep(c, parts[1]), "grep: " + parts[2] + ": No such file or directory\n")
    else if binary == "touch" || binary == "mkdir" then Printed("")
    else if binary == "sudo" then Printed("usage: sudo -h | -K | -k | -V\n")
    else if binary == "curl" || binary == "wget" then Printed(binary + ": connecting... connection timed out.\n")
    else if binary == "exit" || binary == "logout" then Printed("logout\n")
    else Printed("bash: " + binary + ": command not found\n")
  }

  function ReplyTo(cfg: Config, clock: string, s: State, parts: seq<string>): Reply
    requires parts != []
  {
    if parts[0] == "history" then Printed(HistoryListing(s.history))
    else SceneReply(cfg, clock, s.cwd, s.files, parts)
  }

  function Touched(s: State, parts: seq<string>): map<string, string> {
    if |parts| <= 1 then s.files
    else
      var target := ResolvePath(s.cwd, parts[1]);
      if target in s.files then s.files else s.files[target := ""]
  }

  /** What a command other than sudo does to the state. */
  function Effect(s: State, parts: seq<string>): State
    requires parts != []
  {
    if parts[0] == "cd" then s.(cwd := Destination(s.cwd, parts))
    else if parts[0] == "touch" then s.(files := Touched(s, parts))
    else s
  }

  /** Execute on values. sudo runs the rest of its line, which has one field fewer. */
  function Run(cfg: Config, clock: string, s: State, line: string): (State, Reply)
    decreases |Fields(line)|
  {
    var cmdLine := TrimSpace(line);
    FieldsOfTrim(line);
    if cmdLine == "" then (s, Printed(""))
    else
      var recorded, parts := s.(history := s.history + [cmdLine]), Fields(cmdLine);
      if parts[0] == "sudo" && |parts| > 1 then
        FieldsOfJoin(parts[1..]);
        Run(cfg, clock, recorded, Join(parts[1..], " "))
      else (Effect(recorded, parts), ReplyTo(cfg, clock, recorded, parts))
  }

  class VirtualFS {
    const cfg: Config
    var cwd: string
    var history: seq<string>
    var files: map<string, string>

    function View(): State
      reads this
    {
      State(cwd, history, files)
    }

    /** seed holds the planted files. */
    constructor (cfg: Config, seed: map<string, string>)
      ensures this.cfg == cfg && View() == State("/root", [], seed)
    {
      this.cfg := cfg;
      cwd, history, files := "/root", [], seed;
    }

    method ChangeDirectory(parts: seq<string>)
      modifies this`cwd
      ensures cwd == Destination(old(cwd), parts)
    {
      if |parts| < 2 || parts[1] == "~" {
        cwd := "/root";
        return;
      }
      var dest := parts[1];
      if dest == ".." {
        if cwd != "/" {
          var lastSlash := LastIndex(cwd, '/');
          if lastSlash == 0 {
            cwd := "/";
          } else if lastSlash > 0 {
            cwd := cwd[..lastSlash];
          }
        }
        return;
      }
      if !HasPrefix(dest, "/") {
        if cwd == "/" {
          dest := "/" + dest;
        } else {
          dest := cwd + "/" + dest;
        }
      }
      dest := TrimRightChar(dest, '/');
      if dest == "" {
        dest := "/";
      }
      cwd := dest;
    }

    method Touch(parts: seq<string>)
      modifies this`files
      ensures files == Touched(old(View()), parts)
    {
      if |parts| > 1 {
        var target := ResolvePath(cwd, parts[1]);
        if target !in files {
          files := files[target := ""];
        }
      }
    }

    method Execute(line: string, clock: string) returns (reply: Reply)
      modifies this
      ensures (View(), reply) == Run(cfg, clock, old(View()), line)
      decreases |Fields(line)|
    {
      hide ReplyTo, Destination, Touched;
      var cmdLine := TrimSpace(line);
      FieldsOfTrim(line);
      if cmdLine == "" {
        return Printed("");
      }
      history := history + [cmdLine];
      var parts := Fields(cmdLine);
      if parts[0] == "sudo" && |parts| > 1 {
        FieldsOfJoin(parts[1..]);
        reply := Execute(Join(parts[1..], " "), clock);
        return;
      }
      reply := ReplyTo(cfg, clock, View(), parts);
      if parts[0] == "cd" {
        ChangeDirectory(parts);
      } else if parts[0] == "touch" {
        Touch(parts);
      }
    }
  }
}
