// From the event log to the firewall: which commands a whole run executes.
module BlockRunProofs {
  import opened Basics
  import opened Text
  import opened Events
  import opened Blocking
  import opened BlockingProofs
  import opened Playbooks
  import opened RateProofs
  import Defense

  const NOTHING := Effects({}, [], Record([], [], []))

  /** The engine's effects over a whole log, as Process produces them event by event. */
  function RunOf(hook: Option<Setup>, rules: seq<Rule>, log: seq<Entry>): Effects {
    if log == [] then NOTHING
    else
      var earlier, e := log[..|log| - 1], log[|log| - 1];
      DoAll(hook, RunOf(hook, rules, earlier),
            EventCalls(HistoryOf(rules, earlier), rules, |rules|, e.ev, e.now))
  }

  // ---------- the specification: no history, only counting over the log ----------

  function EventDue(rules: seq<Rule>, log: seq<Entry>, e: Entry, n: nat): seq<Call>
    requires n <= |rules|
  {
    if n == 0 then []
    else
      var rule, earlier := rules[n - 1], EventDue(rules, log, e, n - 1);
      if Due(rules, log, e, n - 1)
      then earlier + Calls(rule.actions, |rule.actions|, e.ev, rule.name) else earlier
  }

  /** Every block call a log calls for, in firing order. */
  function DueCalls(rules: seq<Rule>, log: seq<Entry>): seq<Call> {
    if log == [] then []
    else
      var earlier, e := log[..|log| - 1], log[|log| - 1];
      DueCalls(rules, earlier) + EventDue(rules, earlier, e, |rules|)
  }

  /** The firewall commands that a list of block calls asks for. */
  function Commands(calls: seq<Call>): seq<Command> {
    seq(|calls|, i requires 0 <= i < |calls| => BlockCommand(calls[i].ip))
  }

  // ---------- the run makes exactly the due calls ----------

  lemma {:induction false} EventCallsDue(rules: seq<Rule>, log: seq<Entry>, e: Entry, n: nat, ok: Addresses)
    requires Separate(rules, ok) && n <= |rules| && Clock(log + [e]) && From(log + [e], ok)
    ensures EventCalls(HistoryOf(rules, log), rules, n, e.ev, e.now) == EventDue(rules, log, e, n)
  {
    if n > 0 {
      EventCallsDue(rules, log, e, n - 1, ok);
      FiresExactly(rules, log, e, n - 1, ok);
    }
  }

  lemma {:induction false} RunMakesDueCalls(hook: Option<Setup>, rules: seq<Rule>, log: seq<Entry>, ok: Addresses)
    requires Separate(rules, ok) && Clock(log) && From(log, ok)
    ensures RunOf(hook, rules, log) == DoAll(hook, NOTHING, DueCalls(rules, log))
  {
    if log != [] {
      var earlier, e := log[..|log| - 1], log[|log| - 1];
      SplitLast(log);
      ClockBefore(earlier, e);
      FromAppend(earlier, e, ok);
      RunMakesDueCalls(hook, rules, earlier, ok);
      EventCallsDue(rules, earlier, e, |rules|, ok);
      DoAllConcat(hook, NOTHING, DueCalls(rules, earlier), EventDue(rules, earlier, e, |rules|));
    }
  }

  // ---------- what a list of calls leaves behind ----------

  lemma {:induction false} BlockedGrows(calls: seq<Call>, c: Call)
    ensures Blocked(calls + [c]) == Blocked(calls) + {c.ip}
  {
    var more := calls + [c];
    assert forall i :: 0 <= i < |calls| ==> more[i] == calls[i];
    assert more[|calls|] == c;
  }

  lemma {:induction false} CallsAreKept(hook: Option<Setup>, calls: seq<Call>)
    ensures DoAll(hook, NOTHING, calls).calls == calls
    ensures DoAll(hook, NOTHING, calls).blocked == Blocked(calls)
  {
    if calls != [] {
      var init, c := calls[..|calls| - 1], calls[|calls| - 1];
      SplitLast(calls);
      CallsAreKept(hook, init);
      BlockedGrows(init, c);
    }
  }

  predicate IptablesLive(cfg: Setup) {
    cfg.mode == LIVE && cfg.format == Defense.FORMAT_IPTABLES
  }

  predicate WordCommand(c: Command) {
    AllWords([c.name] + c.args)
  }

  /** One live iptables request: the intended command for a word, only well-formed commands otherwise. */
  lemma {:induction false} BlockExecutes(cfg: Setup, r: Record, c: Call) returns (ran: seq<Command>)
    requires IptablesLive(cfg)
    ensures BlockStep(cfg, r, c.ip, c.reason).0.executed == r.executed + ran
    ensures IsWord(c.ip) ==> ran == [BlockCommand(c.ip)]
    ensures forall k :: k in ran ==> WordCommand(k)
  {
    if c.ip == "" {
      ran := [];
      assert r.executed + ran == r.executed;
    } else {
      var script := Defense.Rules([c.ip], cfg.format);
      ran := RunScript(cfg, script, |r.executed|).0;
      PrintedRuleReadsBack(cfg, c.ip, |r.executed|);
      CommandsAreWords(cfg.runner, Split(script, '\n'), |r.executed|);
    }
  }

  lemma {:induction false} CallsExecute(cfg: Setup, calls: seq<Call>)
    requires IptablesLive(cfg)
    ensures var executed := DoAll(Some(cfg), NOTHING, calls).record.executed;
      && ((forall i :: 0 <= i < |calls| ==> IsWord(calls[i].ip)) ==> executed == Commands(calls))
      && (forall k :: k in executed ==> WordCommand(k))
  {
    if calls != [] {
      var init, c := calls[..|calls| - 1], calls[|calls| - 1];
      SplitLast(calls);
      CallsExecute(cfg, init);
      hide BlockStep, BlockCommand, IsWord, IptablesLive, WordCommand, Commands;
      var ran := BlockExecutes(cfg, DoAll(Some(cfg), NOTHING, init).record, c);
      CommandsGrow(init, c);
    }
  }

  lemma {:induction false} CommandsGrow(calls: seq<Call>, c: Call)
    ensures Commands(calls + [c]) == Commands(calls) + [BlockCommand(c.ip)]
  {
  }

  lemma {:induction false} NonWordCommand(calls: seq<Call>, i: nat)
    requires i < |calls| && !IsWord(calls[i].ip)
    ensures exists k :: k in Commands(calls) && !WordCommand(k)
  {
    var k := BlockCommand(calls[i].ip);
    assert Commands(calls)[i] == k;
    var words := [k.name] + k.args;
    assert words[4] == calls[i].ip;
    assert !WordCommand(k) && k in Commands(calls);
  }

  lemma {:induction false} DryRunExecutesNothing(cfg: Setup, calls: seq<Call>)
    requires cfg.mode != LIVE
    ensures DoAll(Some(cfg), NOTHING, calls).record.executed == []
    ensures DoAll(Some(cfg), NOTHING, calls).record.posted == []
  {
    if calls != [] {
      DryRunExecutesNothing(cfg, calls[..|calls| - 1]);
    }
  }

  /**
    Main result, live iptables mode. Whatever the runner and the webhook answer, the commands a run
    executes are one intended command per due block call, in firing order, if and only if every due
    address is non-empty and free of white space.
   */
  lemma {:induction false} LiveRunExecutesDueBlocks(cfg: Setup, rules: seq<Rule>, log: seq<Entry>, ok: Addresses)
    requires Separate(rules, ok) && Clock(log) && From(log, ok) && IptablesLive(cfg)
    ensures var due := DueCalls(rules, log);
      RunOf(Some(cfg), rules, log).record.executed == Commands(due)
      <==> forall i :: 0 <= i < |due| ==> IsWord(due[i].ip)
  {
    var due := DueCalls(rules, log);
    RunMakesDueCalls(Some(cfg), rules, log, ok);
    CallsExecute(cfg, due);
    if i: nat :| i < |due| && !IsWord(due[i].ip) {
      NonWordCommand(due, i);
    }
  }

  /**
    Main result, dry run. Nothing is executed or posted, and the blocked set is the same as live: the
    addresses of the due block calls.
   */
  lemma {:induction false} DryRunBlocksTheSame(
    cfg: Setup, live: Option<Setup>, rules: seq<Rule>, log: seq<Entry>, ok: Addresses)
    requires Separate(rules, ok) && Clock(log) && From(log, ok) && cfg.mode != LIVE
    ensures var run := RunOf(Some(cfg), rules, log);
      && run.record.executed == [] && run.record.posted == []
      && run.blocked == Blocked(DueCalls(rules, log)) == RunOf(live, rules, log).blocked
  {
    var due := DueCalls(rules, log);
    RunMakesDueCalls(Some(cfg), rules, log, ok);
    RunMakesDueCalls(live, rules, log, ok);
    CallsAreKept(Some(cfg), due);
    CallsAreKept(live, due);
    DryRunExecutesNothing(cfg, due);
  }

  // ---------- reported as applied without running anything ----------

  lemma {:induction false} FirstLineHead(s: string)
    requires s != "" && s[0] != '\n'
    ensures Split(s, '\n')[0] != "" && Split(s, '\n')[0][0] == s[0]
  {
  }

  lemma {:induction false} VisibleLineRuns(line: string)
    requires line != "" && !IsSpace(line[0]) && line[0] != '#'
    ensures LineCommand(line).Some?
  {
    TrimRightKeepsHead(line);
    FieldsOfTrim(TrimSpace(line));
  }

  lemma {:induction false} SecondLineRuns(runner: Runner, lines: seq<string>, n: nat)
    requires |lines| >= 2 && LineCommand(lines[0]) == None && LineCommand(lines[1]).Some?
    ensures RunLines(runner, lines, n).0 != []
  {
    assert lines[1..][0] == lines[1];
    hide LineCommand;
  }

  lemma {:induction false} RuleStarts(ip: string)
    ensures Defense.Line(ip, Defense.FORMAT_IPTABLES) != "" && Defense.Line(ip, Defense.FORMAT_IPTABLES)[0] == 'i'
  {
    assert "iptables -A INPUT -s "[0] == 'i';
  }

  /** Whatever the address is, the printed iptables script makes at least one command run. */
  lemma {:induction false} ScriptRuns(cfg: Setup, ip: string, n: nat)
    requires cfg.format == Defense.FORMAT_IPTABLES
    ensures RunScript(cfg, Defense.Rules([ip], cfg.format), n).0 != []
  {
    var rule := Defense.Line(ip, Defense.FORMAT_IPTABLES);
    var script := COMMENT + ['\n'] + rule;
    CommentIsOneLine();
    OneRule(ip);
    RuleStarts(ip);
    assert Defense.Rules([ip], cfg.format) == script;
    SplitAtSeparator(COMMENT, '\n', rule);
    CommentHasNoCommand(COMMENT);
    FirstLineHead(rule);
    VisibleLineRuns(Split(rule, '\n')[0]);
    SecondLineRuns(cfg.runner, Split(script, '\n'), n);
  }

  /**
    Whatever the runner and the webhook answer, a live request for a non-empty address is reported as
    applied although no command was run if and only if the format is neither iptables nor nftables.
   */
  lemma {:induction false} AppliedWithoutRunning(cfg: Setup, r: Record, ip: string, reason: string)
    requires cfg.mode == LIVE && ip != ""
    ensures var after := BlockStep(cfg, r, ip, reason);
      && |after.0.last| == |r.last| + 1
      && (after.0.last[|r.last|].applied <==> after.1 == None)
      && (after.0.last[|r.last|].applied && after.0.executed == r.executed
          <==> cfg.format != Defense.FORMAT_IPTABLES && cfg.format != Defense.FORMAT_NFTABLES)
  {
    var n := |r.executed|;
    var run := RunScript(cfg, Defense.Rules([ip], cfg.format), n);
    RunsByFormat(cfg, ip, n);
    AppliedIs(cfg, r, ip, reason);
    hide *;
    NothingAdded(r.executed, run.0);
  }

  lemma {:induction false} NothingAdded<T>(s: seq<T>, t: seq<T>)
    ensures s + t == s <==> t == []
  {
    assert |s + t| == |s| + |t|;
  }

  /** Nothing is run, and nothing can fail, exactly for the formats that are only printed. */
  lemma {:induction false} RunsByFormat(cfg: Setup, ip: string, n: nat)
    ensures var run := RunScript(cfg, Defense.Rules([ip], cfg.format), n);
      var printed := cfg.format != Defense.FORMAT_IPTABLES && cfg.format != Defense.FORMAT_NFTABLES;
      (run.0 == [] <==> printed) && (printed ==> run.1 == None)
  {
    if cfg.format == Defense.FORMAT_IPTABLES {
      ScriptRuns(cfg, ip, n);
    }
    hide RunLines, Defense.Rules, Split;
  }

  lemma {:induction false} AppliedIs(cfg: Setup, r: Record, ip: string, reason: string)
    requires cfg.mode == LIVE && ip != ""
    ensures var run := RunScript(cfg, Defense.Rules([ip], cfg.format), |r.executed|);
      var after := BlockStep(cfg, r, ip, reason);
      && |after.0.last| == |r.last| + 1 && after.1 == run.1
      && (after.0.last[|r.last|].applied <==> run.1 == None)
      && after.0.executed == r.executed + run.0
  {
    hide RunScript, Defense.Rules;
  }

  // ---------- one request, by its outcome ----------

  /**
    Without an address a request is an error and leaves no trace. Otherwise exactly one result is kept; only in
    mode apply is anything executed or posted; it is applied exactly when the commands went through, posted then
    to a webhook if there is one, and marked delivered exactly when the webhook took it.
   */
  lemma {:induction false} BlockOutcome(cfg: Setup, r: Record, ip: string, reason: string)
    ensures var (after, err) := BlockStep(cfg, r, ip, reason);
      var run := RunScript(cfg, Defense.Rules([ip], cfg.format), |r.executed|);
      if ip == "" then after == r && err.Some?
      else
        var went := cfg.mode == "apply" && run.1 == None;
        var posts := went && cfg.webhookURL != "";
        && |after.last| == |r.last| + 1 && after.last[..|r.last|] == r.last
        && after.last[|r.last|].ip == ip && after.last[|r.last|].reason == reason
        && after.last[|r.last|].mode == cfg.mode && after.last[|r.last|].format == cfg.format
        && after.last[|r.last|].commands == Defense.Rules([ip], cfg.format)
        && after.executed == r.executed + (if cfg.mode == "apply" then run.0 else [])
        && err == (if cfg.mode == "apply" then run.1 else None)
        && (after.last[|r.last|].applied <==> went)
        && |after.posted| == |r.posted| + (if posts then 1 else 0)
        && (after.last[|r.last|].webhookOK <==> posts && cfg.poster(|r.posted|, after.posted[|r.posted|]) == None)
  {
    hide RunScript, Defense.Rules, DryRunMessage;
  }

  /** The modes and formats by name; without a mode nothing is executed. */
  lemma {:induction false} Defaults()
    ensures LIVE == "apply" && DRY_RUN == "dry-run" && LIVE != DRY_RUN
    ensures Defense.FORMAT_IPTABLES == "iptables" && Defense.FORMAT_NFTABLES == "nftables"
  {
  }

  /** How many of the first n actions are of the kind. */
  function CountKind(acts: seq<Action>, n: nat, kind: string): nat
    requires n <= |acts|
  {
    if n == 0 then 0 else CountKind(acts, n - 1, kind) + (if acts[n - 1].kind == kind then 1 else 0)
  }

  /** A firing rule calls the hook once per block_ip action, for the event's own address. */
  lemma {:induction false} CallsExactly(acts: seq<Action>, n: nat, ev: Event, name: string)
    requires n <= |acts|
    ensures var calls := Calls(acts, n, ev, name);
      && |calls| == CountKind(acts, n, "block_ip")
      && forall i :: 0 <= i < |calls| ==> calls[i] == Call(ev.remoteIP, "Triggered by SOAR rule " + name)
  {
    if n > 0 {
      CallsExactly(acts, n - 1, ev, name);
    }
  }

  /** What is reported for an action: which block, alert or tag, of which address, by which rule. */
  lemma {:induction false} ActionTexts(act: Action, ev: Event, name: string)
    ensures act.kind == "block_ip" ==> ActionText(act, ev, name) == "BLOCK_IP " + ev.remoteIP + " (" + name + ")"
    ensures act.kind == "tag" ==> ActionText(act, ev, name) == "TAG " + ev.remoteIP + " -> " + act.target
    ensures act.kind == "alert" || act.kind == "notify" ==>
      ActionText(act, ev, name) == "ALERT [SOAR] Rule " + name + " triggered for " + ev.remoteIP + " (Decoy: "
                                   + ev.decoyName + ", Score: " + Itoa(ev.threatScore) + ")"
    ensures act.kind !in {"block_ip", "tag", "alert", "notify"} ==> ActionText(act, ev, name) == ""
  {
    assert |"block_ip"| == 8 && |"tag"| == 3 && |"alert"| == 5 && |"notify"| == 6;
    hide Itoa;
  }

  /** The message kept with a result says what was done. */
  lemma {:induction false} BlockMessages(cfg: Setup, r: Record, ip: string, reason: string)
    requires ip != ""
    ensures var (after, err) := BlockStep(cfg, r, ip, reason);
      |after.last| == |r.last| + 1 &&
      var message := after.last[|r.last|].message;
      && (cfg.mode != "apply" ==>
            message == "dry-run: would block " + ip + " via " + cfg.format +
                       " (set SHINKIRO_SOAR_APPLY=1 or pass --apply to execute)")
      && (cfg.mode == "apply" && err.Some? ==> message == "apply failed for " + ip + ": " + err.value)
      && (cfg.mode == "apply" && err.None? ==> "applied " + cfg.format + " block for " + ip <= message)
  {
    hide RunScript, Defense.Rules;
  }
}
