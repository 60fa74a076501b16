// The SOAR engine: rules matched against events, rate-limited by a pruned history per rule and address.
module Playbooks {
  import opened Basics
  import opened Events
  import opened Blocking
  import Text

  /** minSeverity is read from the playbook file but never consulted. */
  datatype Condition = Condition(
    decoy: string, minScore: int, minSeverity: string, actionMatch: string, threshold: int, windowSec: int)

  datatype Action = Action(kind: string, target: string)

  datatype Rule = Rule(name: string, enabled: bool, cond: Condition, actions: seq<Action>)

  type History = map<string, seq<Time>>

  /** A call of the block hook: the address and the reason given. */
  datatype Call = Call(ip: string, reason: string)

  // ---------- conditions and the rate window ----------

  predicate Matches(c: Condition, ev: Event) {
    && (c.decoy == "" || c.decoy == "*" || c.decoy == ev.decoyName)
    && (c.minScore <= 0 || ev.threatScore >= c.minScore)
    && (c.actionMatch == "" || Text.Contains(Text.ToUpper(ev.action), Text.ToUpper(c.actionMatch)))
  }

  predicate Gated(rule: Rule) {
    rule.cond.threshold > 1 && rule.cond.windowSec > 0
  }

  function Key(rule: Rule, ip: string): string {
    rule.name + ":" + ip
  }

  /** time.Duration(WindowSec) * time.Second, in int64 nanoseconds. */
  function DurationOf(rule: Rule): int {
    WrapInt64(rule.cond.windowSec * SECOND)
  }

  /** How far now.Add(-window) reaches back; the least int64 is its own negation. */
  function WindowOf(rule: Rule): int {
    -WrapInt64(-DurationOf(rule))
  }

  /** The timestamps strictly after cutoff. */
  function Recent(h: seq<Time>, cutoff: Time): seq<Time> {
    if h == [] then []
    else Recent(h[..|h| - 1], cutoff) + (if h[|h| - 1] > cutoff then [h[|h| - 1]] else [])
  }

  function Lookup(h: History, key: string): seq<Time> {
    if key in h then h[key] else []
  }

  predicate Selected(rule: Rule, ev: Event) {
    rule.enabled && Matches(rule.cond, ev)
  }

  /** The history a rule leaves behind for one event at time now. */
  function Touched(h: History, rule: Rule, ev: Event, now: Time): History {
    if Selected(rule, ev) && Gated(rule) then
      var key := Key(rule, ev.remoteIP);
      h[key := Recent(Lookup(h, key), now - WindowOf(rule)) + [now]]
    else h
  }

  predicate Fires(h: History, rule: Rule, ev: Event, now: Time) {
    && Selected(rule, ev)
    && (Gated(rule) ==>
          |Recent(Lookup(h, Key(rule, ev.remoteIP)), now - WindowOf(rule))| + 1 >= rule.cond.threshold)
  }

  /** The history after the first n rules have looked at one event. */
  function HistoryAfter(h: History, rules: seq<Rule>, n: nat, ev: Event, now: Time): History
    requires n <= |rules|
  {
    if n == 0 then h else Touched(HistoryAfter(h, rules, n - 1, ev, now), rules[n - 1], ev, now)
  }

  // ---------- actions ----------

  function Reason(name: string): string {
    "Triggered by SOAR rule " + name
  }

  function ActionText(act: Action, ev: Event, name: string): string {
    if act.kind == "block_ip" then "BLOCK_IP " + ev.remoteIP + " (" + name + ")"
    else if act.kind == "alert" || act.kind == "notify" then
      "ALERT [SOAR] Rule " + name + " triggered for " + ev.remoteIP + " (Decoy: " + ev.decoyName +
      ", Score: " + Text.Itoa(ev.threatScore) + ")"
    else if act.kind == "tag" then "TAG " + ev.remoteIP + " -> " + act.target
    else ""
  }

  function Texts(acts: seq<Action>, n: nat, ev: Event, name: string): seq<string>
    requires n <= |acts|
  {
    if n == 0 then []
    else
      var text, earlier := ActionText(acts[n - 1], ev, name), Texts(acts, n - 1, ev, name);
      if text != "" then earlier + [text] else earlier
  }

  /** One hook call for every block_ip action among the first n. */
  function Calls(acts: seq<Action>, n: nat, ev: Event, name: string): seq<Call>
    requires n <= |acts|
  {
    if n == 0 then []
    else
      var earlier := Calls(acts, n - 1, ev, name);
      if acts[n - 1].kind == "block_ip" then earlier + [Call(ev.remoteIP, Reason(name))] else earlier
  }

  /** Hook calls made while the first n rules look at one event. */
  function EventCalls(h: History, rules: seq<Rule>, n: nat, ev: Event, now: Time): seq<Call>
    requires n <= |rules|
  {
    if n == 0 then []
    else
      var rule, earlier := rules[n - 1], EventCalls(h, rules, n - 1, ev, now);
      if Fires(HistoryAfter(h, rules, n - 1, ev, now), rule, ev, now)
      then earlier + Calls(rule.actions, |rule.actions|, ev, rule.name) else earlier
  }

  function EventTexts(h: History, rules: seq<Rule>, n: nat, ev: Event, now: Time): seq<string>
    requires n <= |rules|
  {
    if n == 0 then []
    else
      var rule, earlier := rules[n - 1], EventTexts(h, rules, n - 1, ev, now);
      if Fires(HistoryAfter(h, rules, n - 1, ev, now), rule, ev, now)
      then earlier + Texts(rule.actions, |rule.actions|, ev, rule.name) else earlier
  }

  /** The addresses a list of hook calls blocks. */
  function Blocked(calls: seq<Call>): (ips: set<string>)
    ensures forall ip :: ip in ips <==> exists i :: 0 <= i < |calls| && calls[i].ip == ip
  {
    set i | 0 <= i < |calls| :: calls[i].ip
  }

  /** Everything the engine's actions have brought about: blocked addresses, hook calls, applier. */
  datatype Effects = Effects(blocked: set<string>, calls: seq<Call>, record: Record)

  /** One hook call; its error is discarded, and without a hook only the bookkeeping remains. */
  function Do(hook: Option<Setup>, e: Effects, c: Call): Effects {
    Effects(e.blocked + {c.ip}, e.calls + [c],
            if hook.Some? then BlockStep(hook.value, e.record, c.ip, c.reason).0 else e.record)
  }

  function DoAll(hook: Option<Setup>, e: Effects, calls: seq<Call>): Effects {
    if calls == [] then e else Do(hook, DoAll(hook, e, calls[..|calls| - 1]), calls[|calls| - 1])
  }

  lemma {:induction false} DoAllNone(hook: Option<Setup>, e: Effects)
    ensures DoAll(hook, e, []) == e
  {
  }

  lemma {:induction false} DoAllAppend(hook: Option<Setup>, e: Effects, calls: seq<Call>, c: Call)
    ensures DoAll(hook, e, calls + [c]) == Do(hook, DoAll(hook, e, calls), c)
  {
    assert (calls + [c])[..|calls|] == calls;
    hide Do;
  }

  lemma {:induction false} DoAllConcat(hook: Option<Setup>, e: Effects, a: seq<Call>, b: seq<Call>)
    ensures DoAll(hook, e, a + b) == DoAll(hook, DoAll(hook, e, a), b)
  {
    hide *;
    if b == [] {
      assert a + b == a;
      DoAllNone(hook, DoAll(hook, e, a));
    } else {
      var b', c := b[..|b| - 1], b[|b| - 1];
      SplitLast(b);
      DoAllConcat(hook, e, a, b');
      DoAllAppend(hook, DoAll(hook, e, a), b', c);
      DoAllAppend(hook, e, a + b', c);
      ConcatAssociative(a, b', [c]);
    }
  }

  // ---------- the engine ----------

  /** What one rule's look at an event comes to, in the terms of the loop that evaluates it. */
  lemma {:induction false} Turn(h: History, rule: Rule, ev: Event, now: Time)
    ensures !rule.enabled || !Matches(rule.cond, ev) ==> !Fires(h, rule, ev, now) && Touched(h, rule, ev, now) == h
    ensures rule.enabled && Matches(rule.cond, ev) && !Gated(rule) ==>
      Fires(h, rule, ev, now) && Touched(h, rule, ev, now) == h
    ensures rule.enabled && Matches(rule.cond, ev) && Gated(rule) ==>
      var key := Key(rule, ev.remoteIP);
      var recent := Recent(Lookup(h, key), now + WrapInt64(-DurationOf(rule))) + [now];
      Touched(h, rule, ev, now) == h[key := recent]
      && (Fires(h, rule, ev, now) <==> |recent| >= rule.cond.threshold)
  {
    hide Matches, Recent, Lookup, Key, DurationOf;
  }

  class Engine {
    var rules: seq<Rule>
    var history: History
    var blockedIPs: set<string>
    var blockHook: BlockApplier?
    ghost var calls: seq<Call>  // every hook call since the engine was built

    constructor ()
      ensures rules == [] && history == map[] && blockedIPs == {} && blockHook == null && calls == []
    {
      rules, history, blockedIPs, blockHook, calls := [], map[], {}, null, [];
    }

    method SetBlockHook(hook: BlockApplier?)
      modifies this`blockHook
      ensures blockHook == hook
    {
      blockHook := hook;
    }

    method AddRule(r: Rule)
      modifies this`rules
      ensures rules == old(rules) + [r]
    {
      rules := rules + [r];
    }

    function Hook(): Option<Setup>
      reads this`blockHook
    {
      if blockHook == null then None else Some(blockHook.cfg)
    }

    ghost function Done(): Effects
      reads this, blockHook
    {
      Effects(blockedIPs, calls, if blockHook == null then Record([], [], []) else blockHook.View())
    }

    method ExecuteAction(act: Action, ev: Event, ruleName: string) returns (text: string)
      modifies this`blockedIPs, this`calls, blockHook
      ensures text == ActionText(act, ev, ruleName)
      ensures Done() == if act.kind == "block_ip"
                        then Do(Hook(), old(Done()), Call(ev.remoteIP, Reason(ruleName)))
                        else old(Done())
    {
      text := ActionText(act, ev, ruleName);
      if act.kind == "block_ip" {
        blockedIPs := blockedIPs + {ev.remoteIP};
        calls := calls + [Call(ev.remoteIP, Reason(ruleName))];
        if blockHook != null {
          var _ := blockHook.BlockIP(ev.remoteIP, Reason(ruleName));
        }
      }
    }

    /** The counting of one gated rule: forget what left the window, add now. */
    method Slide(key: string, cutoff: Time, now: Time) returns (recent: seq<Time>)
      modifies this`history
      ensures recent == Recent(Lookup(old(history), key), cutoff) + [now]
      ensures history == old(history)[key := recent]
    {
      recent := [];
      var stamps := if key in history then history[key] else [];
      for i := 0 to |stamps|
        invariant recent == Recent(stamps[..i], cutoff)
      {
        assert stamps[..i + 1][..i] == stamps[..i];
        if stamps[i] > cutoff {
          recent := recent + [stamps[i]];
        }
      }
      assert stamps[..|stamps|] == stamps;
      recent := recent + [now];
      history := history[key := recent];
    }

    method ExecuteActions(rule: Rule, ev: Event) returns (texts: seq<string>)
      modifies this`blockedIPs, this`calls, blockHook
      ensures texts == Texts(rule.actions, |rule.actions|, ev, rule.name)
      ensures Done() == DoAll(Hook(), old(Done()), Calls(rule.actions, |rule.actions|, ev, rule.name))
    {
      hide Do, DoAll, ActionText;
      DoAllNone(Hook(), Done());
      texts := [];
      for i := 0 to |rule.actions|
        invariant texts == Texts(rule.actions, i, ev, rule.name)
        invariant Done() == DoAll(Hook(), old(Done()), Calls(rule.actions, i, ev, rule.name))
      {
        DoAllAppend(Hook(), old(Done()), Calls(rule.actions, i, ev, rule.name),
                    Call(ev.remoteIP, Reason(rule.name)));
        var text := ExecuteAction(rule.actions[i], ev, rule.name);
        if text != "" {
          texts := texts + [text];
        }
      }
    }

    /** Evaluates one event, at clock reading now, against every rule in order. */
    method Process(ev: Event, now: Time) returns (executed: seq<string>)
      modifies this`history, this`blockedIPs, this`calls, blockHook
      ensures executed == EventTexts(old(history), rules, |rules|, ev, now)
      ensures history == HistoryAfter(old(history), rules, |rules|, ev, now)
      ensures Done() == DoAll(Hook(), old(Done()), EventCalls(old(history), rules, |rules|, ev, now))
    {
      hide DoAll, Matches, Recent, Fires, Touched, Selected, Lookup, Key, WindowOf;
      DoAllNone(Hook(), Done());
      executed := [];
      for i := 0 to |rules|
        invariant executed == EventTexts(old(history), rules, i, ev, now)
        invariant history == HistoryAfter(old(history), rules, i, ev, now)
        invariant Done() == DoAll(Hook(), old(Done()), EventCalls(old(history), rules, i, ev, now))
      {
        var rule := rules[i];
        Turn(history, rule, ev, now);
        if !rule.enabled || !Matches(rule.cond, ev) {
          continue;
        }
        if rule.cond.threshold > 1 && rule.cond.windowSec > 0 {
          var recent := Slide(Key(rule, ev.remoteIP), now + WrapInt64(-DurationOf(rule)), now);
          if |recent| < rule.cond.threshold {
            continue;
          }
        }
        DoAllConcat(Hook(), old(Done()), EventCalls(old(history), rules, i, ev, now),
                    Calls(rule.actions, |rule.actions|, ev, rule.name));
        var texts := ExecuteActions(rule, ev);
        executed := executed + texts;
      }
    }
  }
}
