// The block_ip applier: dry-run by default, live execution of the printed firewall rules otherwise.
module Blocking {
  import opened Basics
  import opened Text
  import Defense

  const DRY_RUN := "dry-run"
  const LIVE := "apply"

  datatype Command = Command(name: string, args: seq<string>, stdin: string)

  datatype BlockResult = BlockResult(
    ip: string, reason: string, mode: string, format: string, commands: string,
    applied: bool, webhookOK: bool, message: string)

  /** The outside world: the error, if any, of the n-th command run and of the n-th webhook POST. */
  type Runner = (nat, Command) -> Option<string>
  type Poster = (nat, BlockResult) -> Option<string>

  datatype Setup = Setup(mode: string, format: string, webhookURL: string, runner: Runner, poster: Poster)

  /** What an applier has done so far. */
  datatype Record = Record(executed: seq<Command>, posted: seq<BlockResult>, last: seq<BlockResult>)

  // ---------- reading commands back out of the printed rules ----------

  /** The command one line of an iptables script asks for; blank lines and comments ask for none. */
  function LineCommand(raw: string): Option<Command> {
    var line := TrimSpace(raw);
    if line == "" || HasPrefix(line, "#") then None
    else
      var fields := Fields(line);
      if |fields| == 0 then None else Some(Command(fields[0], fields[1..], ""))
  }

  /** Runs lines in order until one fails; n commands have been run before. */
  function RunLines(runner: Runner, lines: seq<string>, n: nat): (seq<Command>, Option<string>) {
    if lines == [] then ([], None)
    else
      match LineCommand(lines[0])
      case None => RunLines(runner, lines[1..], n)
      case Some(cmd) =>
        match runner(n, cmd)
        case Some(err) => ([cmd], Some(TrimSpace(lines[0]) + ": " + err))
        case None => var rest := RunLines(runner, lines[1..], n + 1); ([cmd] + rest.0, rest.1)
  }

  function RunScript(cfg: Setup, script: string, n: nat): (seq<Command>, Option<string>) {
    if cfg.format == Defense.FORMAT_IPTABLES then RunLines(cfg.runner, Split(script, '\n'), n)
    else if cfg.format == Defense.FORMAT_NFTABLES then
      var cmd := Command("nft", ["-f", "-"], script);
      match cfg.runner(n, cmd)
      case Some(err) => ([cmd], Some("nft -f -: " + err))
      case None => ([cmd], None)
    else ([], None)
  }

  // ---------- one block_ip request, on values ----------

  function DryRunMessage(ip: string, format: string): string {
    "dry-run: would block " + ip + " via " + format +
    " (set SHINKIRO_SOAR_APPLY=1 or pass --apply to execute)"
  }

  function BlockStep(cfg: Setup, r: Record, ip: string, reason: string): (Record, Option<string>) {
    if ip == "" then (r, Some("block_ip: empty IP"))
    else
      var cmds := Defense.Rules([ip], cfg.format);
      var res := BlockResult(ip, reason, cfg.mode, cfg.format, cmds, false, false, "");
      if cfg.mode != LIVE then
        (r.(last := r.last + [res.(message := DryRunMessage(ip, cfg.format))]), None)
      else
        var run := RunScript(cfg, cmds, |r.executed|);
        var ran := r.(executed := r.executed + run.0);
        match run.1
        case Some(err) =>
          (ran.(last := ran.last + [res.(message := "apply failed for " + ip + ": " + err)]), Some(err))
        case None =>
          var done := res.(applied := true, message := "applied " + cfg.format + " block for " + ip);
          if cfg.webhookURL == "" then (ran.(last := ran.last + [done]), None)
          else
            var final := match cfg.poster(|r.posted|, done)
              case Some(err) => done.(message := done.message + "; webhook error: " + err)
              case None => done.(webhookOK := true);
            (ran.(posted := ran.posted + [done], last := ran.last + [final]), None)
  }

  class BlockApplier {
    const cfg: Setup
    var executed: seq<Command>
    var posted: seq<BlockResult>
    var last: seq<BlockResult>

    function View(): Record
      reads this
    {
      Record(executed, posted, last)
    }

    constructor (mode: string, format: string, webhookURL: string, runner: Runner, poster: Poster)
      ensures View() == Record([], [], [])
      ensures cfg.mode == if mode == "" then DRY_RUN else mode
      ensures cfg.format == if format == "" then Defense.FORMAT_NFTABLES else format
      ensures cfg.webhookURL == webhookURL && cfg.runner == runner && cfg.poster == poster
    {
      cfg := Setup(if mode == "" then DRY_RUN else mode,
                   if format == "" then Defense.FORMAT_NFTABLES else format,
                   webhookURL, runner, poster);
      executed, posted, last := [], [], [];
    }

    method RunCommand(cmd: Command) returns (err: Option<string>)
      modifies this`executed
      ensures executed == old(executed) + [cmd]
      ensures err == cfg.runner(|old(executed)|, cmd)
    {
      err := cfg.runner(|executed|, cmd);
      executed := executed + [cmd];
    }

    method ExecLines(lines: seq<string>) returns (err: Option<string>)
      modifies this`executed
      ensures var run := RunLines(cfg.runner, lines, |old(executed)|);
        executed == old(executed) + run.0 && err == run.1
    {
      ghost var whole := RunLines(cfg.runner, lines, |executed|);
      for i := 0 to |lines|
        invariant var rest := RunLines(cfg.runner, lines[i..], |executed|);
          executed + rest.0 == old(executed) + whole.0 && rest.1 == whole.1
      {
        assert lines[i..][1..] == lines[i + 1..];
        var line := TrimSpace(lines[i]);
        if line == "" || HasPrefix(line, "#") {
          continue;
        }
        var fields := Fields(line);
        if |fields| == 0 {
          continue;
        }
        var cmd := Command(fields[0], fields[1..], "");
        ghost var before := executed;
        var failed := RunCommand(cmd);
        ConcatAssociative(before, [cmd], RunLines(cfg.runner, lines[i + 1..], |executed|).0);
        if failed.Some? {
          return Some(line + ": " + failed.value);
        }
      }
      err := None;
    }

    method ExecCommands(script: string) returns (err: Option<string>)
      modifies this`executed
      ensures var run := RunScript(cfg, script, |old(executed)|);
        executed == old(executed) + run.0 && err == run.1
    {
      if cfg.format == Defense.FORMAT_IPTABLES {
        err := ExecLines(Split(script, '\n'));
      } else if cfg.format == Defense.FORMAT_NFTABLES {
        err := RunCommand(Command("nft", ["-f", "-"], script));
        if err.Some? {
          err := Some("nft -f -: " + err.value);
        }
      } else {
        err := None;
      }
    }

    method BlockIP(ip: string, reason: string) returns (err: Option<string>)
      modifies this
      ensures (View(), err) == BlockStep(cfg, old(View()), ip, reason)
    {
      hide RunScript, Defense.Rules, DryRunMessage;
      if ip == "" {
        return Some("block_ip: empty IP");
      }
      var cmds := Defense.GenerateRules([ip], cfg.format);
      var res := BlockResult(ip, reason, cfg.mode, cfg.format, cmds, false, false, "");
      if cfg.mode != LIVE {
        last := last + [res.(message := DryRunMessage(ip, cfg.format))];
        return None;
      }
      err := ExecCommands(cmds);
      if err.Some? {
        last := last + [res.(message := "apply failed for " + ip + ": " + err.value)];
        return;
      }
      res := res.(applied := true, message := "applied " + cfg.format + " block for " + ip);
      if cfg.webhookURL != "" {
        var failed := cfg.poster(|posted|, res);
        posted := posted + [res];
        res := if failed.Some? then res.(message := res.message + "; webhook error: " + failed.value)
               else res.(webhookOK := true);
      }
      last := last + [res];
    }
  }
}
