// The pruned per-key history decides exactly what counting over the full log would decide.
module RateProofs {
  import opened Basics
  import opened Events
  import opened Playbooks
  import Text

  /** One processed event and the clock reading at which it was processed. */
  datatype Entry = Entry(ev: Event, now: Time)

  /** The clock never goes back. */
  ghost predicate Clock(log: seq<Entry>) {
    forall i, j :: 0 <= i < j < |log| ==> log[i].now <= log[j].now
  }

  /** The rule asks for more than one event within a number of seconds. */
  predicate RateLimited(rule: Rule) {
    rule.cond.threshold > 1 && rule.cond.windowSec > 0
  }

  predicate Counts(rule: Rule) {
    rule.enabled && RateLimited(rule)
  }

  lemma {:induction false} GatedExactly(rule: Rule)
    ensures Gated(rule) <==> RateLimited(rule)
  {
  }

  /** The window did not wrap to nothing. */
  predicate Positive(rule: Rule) {
    WindowOf(rule) > 0
  }

  /** Which strings events may carry as their address. */
  type Addresses = string -> bool

  predicate From(log: seq<Entry>, ok: Addresses) {
    forall i :: 0 <= i < |log| ==> ok(log[i].ev.remoteIP)
  }

  /** Two rules can come to share a history key. */
  ghost predicate Meet(a: Rule, b: Rule, ok: Addresses) {
    exists x, y :: ok(x) && ok(y) && Key(a, x) == Key(b, y)
  }

  predicate Wild(c: Condition) {
    c.decoy == "" || c.decoy == "*"
  }

  /** Whatever d matches, c matches. */
  predicate Covers(c: Condition, d: Condition) {
    && (Wild(c) || (!Wild(d) && c.decoy == d.decoy))
    && (c.minScore <= 0 || c.minScore <= d.minScore)
    && (c.actionMatch == "" || Text.Contains(Text.ToUpper(d.actionMatch), Text.ToUpper(c.actionMatch)))
  }

  /**
    Rule i may share its key with rule j all the same: rule i only asks whether there was an event before,
    and rule j, whose window wrapped to nothing, comes later, writes the same key for no event that rule i
    does not count, and leaves that event's time behind.
   */
  predicate Tolerated(rules: seq<Rule>, i: nat, j: nat)
    requires i < |rules| && j < |rules|
  {
    && rules[i].cond.threshold == 2 && i < j && !Positive(rules[j])
    && rules[i].name == rules[j].name && Covers(rules[i].cond, rules[j].cond)
  }

  ghost predicate Apart(rules: seq<Rule>, i: nat, ok: Addresses)
    requires i < |rules|
  {
    forall j: nat :: j < |rules| && j != i && Counts(rules[j]) && Meet(rules[i], rules[j], ok) ==> Tolerated(rules, i, j)
  }

  /** No rate-limited rule that can fire shares a key with another, but for the tolerated case. */
  ghost predicate Separate(rules: seq<Rule>, ok: Addresses) {
    forall i: nat :: i < |rules| && Counts(rules[i]) && Positive(rules[i]) ==> Apart(rules, i, ok)
  }

  /** The history after a whole log, from an empty engine. */
  function HistoryOf(rules: seq<Rule>, log: seq<Entry>): History {
    if log == [] then map[]
    else
      var e := log[|log| - 1];
      HistoryAfter(HistoryOf(rules, log[..|log| - 1]), rules, |rules|, e.ev, e.now)
  }

  /** e is an event of ip selected by rule, inside the half-open window (now - W, now]. */
  predicate InWindow(rule: Rule, ip: string, e: Entry, now: Time) {
    Selected(rule, e.ev) && e.ev.remoteIP == ip && now - WindowOf(rule) < e.now <= now
  }

  /** How many log entries of (rule, ip) lie in the window that ends now. */
  function WindowCount(rule: Rule, ip: string, log: seq<Entry>, now: Time): nat {
    |set i | 0 <= i < |log| && InWindow(rule, ip, log[i], now)|
  }

  // ---------- timestamps of one rule and address ----------

  function Stamps(rule: Rule, ip: string, log: seq<Entry>): seq<Time> {
    if log == [] then []
    else
      var earlier, e := Stamps(rule, ip, log[..|log| - 1]), log[|log| - 1];
      if Selected(rule, e.ev) && e.ev.remoteIP == ip then earlier + [e.now] else earlier
  }

  lemma {:induction false} RecentAppend(h: seq<Time>, t: Time, cutoff: Time)
    ensures Recent(h + [t], cutoff) == Recent(h, cutoff) + (if t > cutoff then [t] else [])
  {
    assert (h + [t])[..|h|] == h;
  }

  /** What one cutoff forgets, every later cutoff would have forgotten too. */
  lemma {:induction false} RecentTwice(h: seq<Time>, early: Time, late: Time)
    requires early <= late
    ensures Recent(Recent(h, early), late) == Recent(h, late)
  {
    if h != [] {
      var init, t := h[..|h| - 1], h[|h| - 1];
      RecentTwice(init, early, late);
      RecentAppend(Recent(init, early), t, late);
      assert Recent(init, early) + [] == Recent(init, early);
    }
  }

  /** The stored history and the full list agree on everything a window ending at b or later can see. */
  ghost predicate Sound(rule: Rule, ip: string, stored: seq<Time>, log: seq<Entry>, b: Time) {
    forall c :: c >= b - WindowOf(rule) ==> Recent(stored, c) == Recent(Stamps(rule, ip, log), c)
  }

  lemma {:induction false} SoundTouched(rule: Rule, ip: string, stored: seq<Time>, log: seq<Entry>, b: Time, e: Entry)
    requires Sound(rule, ip, stored, log, b) && b <= e.now
    requires Selected(rule, e.ev) && e.ev.remoteIP == ip
    ensures Sound(rule, ip, Recent(stored, e.now - WindowOf(rule)) + [e.now], log + [e], e.now)
  {
    var cutoff := e.now - WindowOf(rule);
    assert (log + [e])[..|log|] == log;
    forall c | c >= cutoff
      ensures Recent(Recent(stored, cutoff) + [e.now], c) == Recent(Stamps(rule, ip, log + [e]), c)
    {
      RecentAppend(Recent(stored, cutoff), e.now, c);
      RecentTwice(stored, cutoff, c);
      RecentAppend(Stamps(rule, ip, log), e.now, c);
    }
  }

  lemma {:induction false} SoundUntouched(rule: Rule, ip: string, stored: seq<Time>, log: seq<Entry>, b: Time, e: Entry)
    requires Sound(rule, ip, stored, log, b) && b <= e.now
    requires !(Selected(rule, e.ev) && e.ev.remoteIP == ip)
    ensures Sound(rule, ip, stored, log + [e], e.now)
  {
    assert (log + [e])[..|log|] == log;
  }

  // ---------- keys ----------

  lemma {:induction false} KeyOfAddress(a: Rule, x: string, y: string)
    requires Key(a, x) == Key(a, y)
    ensures x == y
  {
    assert Key(a, x)[|a.name| + 1..] == x && Key(a, y)[|a.name| + 1..] == y;
  }

  lemma {:induction false} KeyOfName(a: Rule, b: Rule, x: string, y: string)
    requires a.name == b.name && Key(a, x) == Key(b, y)
    ensures x == y
  {
    KeyOfAddress(a, x, y);
  }

  /** A rule whose key is another leaves the entry alone. */
  lemma {:induction false} TouchElsewhere(h: History, rule: Rule, ev: Event, now: Time, key: string)
    requires Counts(rule) && Selected(rule, ev) ==> Key(rule, ev.remoteIP) != key
    ensures Lookup(Touched(h, rule, ev, now), key) == Lookup(h, key)
  {
    GatedExactly(rule);
    hide Key, Recent, WindowOf, Matches, Gated;
  }

  lemma {:induction false} TouchHere(h: History, rule: Rule, ev: Event, now: Time)
    requires Counts(rule) && Selected(rule, ev)
    ensures var key := Key(rule, ev.remoteIP);
      Lookup(Touched(h, rule, ev, now), key) == Recent(Lookup(h, key), now - WindowOf(rule)) + [now]
  {
    GatedExactly(rule);
    hide Key, Recent, WindowOf, Matches, Gated;
  }

  lemma {:induction false} TouchedLookup(h: History, rule: Rule, ip: string, ev: Event, now: Time)
    requires Counts(rule)
    ensures var stored := Lookup(h, Key(rule, ip));
      Lookup(Touched(h, rule, ev, now), Key(rule, ip)) ==
      if Selected(rule, ev) && ev.remoteIP == ip then Recent(stored, now - WindowOf(rule)) + [now] else stored
  {
    if Key(rule, ev.remoteIP) == Key(rule, ip) {
      KeyOfAddress(rule, ev.remoteIP, ip);
    }
    hide *;
    if Selected(rule, ev) && ev.remoteIP == ip {
      TouchHere(h, rule, ev, now);
    } else {
      TouchElsewhere(h, rule, ev, now, Key(rule, ip));
    }
  }

  lemma {:induction false} AfterNone(h: History, rules: seq<Rule>, ev: Event, now: Time)
    ensures HistoryAfter(h, rules, 0, ev, now) == h
  {
  }

  lemma {:induction false} AfterStep(h: History, rules: seq<Rule>, n: nat, ev: Event, now: Time)
    requires n < |rules|
    ensures HistoryAfter(h, rules, n + 1, ev, now) == Touched(HistoryAfter(h, rules, n, ev, now), rules[n], ev, now)
  {
    hide Touched;
  }

  /** No other rule of the list shares the rule's key. */
  ghost predicate Lone(rules: seq<Rule>, j: nat, ok: Addresses)
    requires j < |rules|
  {
    forall i: nat :: i < |rules| && i != j && Counts(rules[i]) ==> !Meet(rules[j], rules[i], ok)
  }

  lemma {:induction false} LoneKey(rules: seq<Rule>, j: nat, i: nat, ok: Addresses, ip: string, other: string)
    requires j < |rules| && i < |rules| && i != j && Lone(rules, j, ok) && ok(ip) && ok(other) && Counts(rules[i])
    ensures Key(rules[i], other) != Key(rules[j], ip)
  {
    assert !Meet(rules[j], rules[i], ok);
    hide Key, Counts;
  }

  /** While the rules look at one event, a lone rule's entry changes only at that rule's turn. */
  lemma {:induction false} OnlyOwnTurn(
    h: History, rules: seq<Rule>, n: nat, j: nat, ok: Addresses, ip: string, ev: Event, now: Time)
    requires n <= |rules| && j < |rules| && Counts(rules[j]) && Lone(rules, j, ok) && ok(ip) && ok(ev.remoteIP)
    ensures var key, stored := Key(rules[j], ip), Lookup(h, Key(rules[j], ip));
      Lookup(HistoryAfter(h, rules, n, ev, now), key) ==
      if n > j && Selected(rules[j], ev) && ev.remoteIP == ip
      then Recent(stored, now - WindowOf(rules[j])) + [now] else stored
  {
    hide *;
    if n == 0 {
      AfterNone(h, rules, ev, now);
    } else {
      OnlyOwnTurn(h, rules, n - 1, j, ok, ip, ev, now);
      AfterStep(h, rules, n - 1, ev, now);
      var before, rule := HistoryAfter(h, rules, n - 1, ev, now), rules[n - 1];
      if n - 1 == j {
        TouchedLookup(before, rule, ip, ev, now);
      } else {
        if Counts(rule) {
          LoneKey(rules, j, n - 1, ok, ip, ev.remoteIP);
        }
        TouchElsewhere(before, rule, ev, now, Key(rules[j], ip));
      }
    }
  }

  lemma {:induction false} HistoryAppend(rules: seq<Rule>, log: seq<Entry>, e: Entry)
    ensures HistoryOf(rules, log + [e]) == HistoryAfter(HistoryOf(rules, log), rules, |rules|, e.ev, e.now)
  {
    DropLast(log, e);
    hide HistoryAfter;
  }

  lemma {:induction false} FromAppend(log: seq<Entry>, e: Entry, ok: Addresses)
    ensures From(log + [e], ok) <==> From(log, ok) && ok(e.ev.remoteIP)
  {
    var all := log + [e];
    assert forall i :: 0 <= i < |log| ==> all[i] == log[i];
    assert all[|log|] == e;
  }

  lemma {:induction false} ClockBefore(log: seq<Entry>, e: Entry)
    requires Clock(log + [e])
    ensures Clock(log) && forall i :: 0 <= i < |log| ==> log[i].now <= e.now
    ensures log != [] ==> log[|log| - 1].now <= e.now
  {
    var all := log + [e];
    assert forall i :: 0 <= i < |log| ==> all[i] == log[i];
    assert all[|log|] == e;
  }

  lemma {:induction false} SoundNothing(rule: Rule, ip: string, b: Time)
    ensures Sound(rule, ip, [], [], b)
  {
  }

  lemma {:induction false} NoHistory(rules: seq<Rule>, key: string)
    ensures Lookup(HistoryOf(rules, []), key) == []
  {
  }

  /** The stored history of a lone rule and any address is sound after any log. */
  lemma {:induction false} HistorySound(rules: seq<Rule>, log: seq<Entry>, j: nat, ok: Addresses, ip: string, b: Time)
    requires j < |rules| && Counts(rules[j]) && Lone(rules, j, ok) && From(log, ok) && ok(ip) && Clock(log)
    requires log != [] ==> log[|log| - 1].now <= b
    ensures Sound(rules[j], ip, Lookup(HistoryOf(rules, log), Key(rules[j], ip)), log, b)
  {
    hide *;
    if log != [] {
      var earlier, e := log[..|log| - 1], log[|log| - 1];
      SplitLast(log);
      ClockBefore(earlier, e);
      FromAppend(earlier, e, ok);
      HistorySound(rules, earlier, j, ok, ip, e.now);
      HistoryGrowsSoundly(rules, earlier, e, j, ok, ip);
      SoundLater(rules[j], ip, Lookup(HistoryOf(rules, log), Key(rules[j], ip)), log, e.now, b);
    } else {
      NoHistory(rules, Key(rules[j], ip));
      SoundNothing(rules[j], ip, b);
    }
  }

  lemma {:induction false} SoundLater(rule: Rule, ip: string, stored: seq<Time>, log: seq<Entry>, a: Time, b: Time)
    requires Sound(rule, ip, stored, log, a) && a <= b
    ensures Sound(rule, ip, stored, log, b)
  {
    hide Recent, Stamps;
  }

  lemma {:induction false} HistoryGrowsSoundly(
    rules: seq<Rule>, log: seq<Entry>, e: Entry, j: nat, ok: Addresses, ip: string)
    requires j < |rules| && Counts(rules[j]) && Lone(rules, j, ok) && ok(ip) && ok(e.ev.remoteIP)
    requires Sound(rules[j], ip, Lookup(HistoryOf(rules, log), Key(rules[j], ip)), log, e.now)
    ensures Sound(rules[j], ip, Lookup(HistoryOf(rules, log + [e]), Key(rules[j], ip)), log + [e], e.now)
  {
    hide *;
    var rule := rules[j];
    var stored := Lookup(HistoryOf(rules, log), Key(rule, ip));
    HistoryAppend(rules, log, e);
    OnlyOwnTurn(HistoryOf(rules, log), rules, |rules|, j, ok, ip, e.ev, e.now);
    if Selected(rule, e.ev) && e.ev.remoteIP == ip {
      SoundTouched(rule, ip, stored, log, e.now, e);
    } else {
      SoundUntouched(rule, ip, stored, log, e.now, e);
    }
  }

  // ---------- counting ----------

  lemma {:induction false} CountNone(rule: Rule, ip: string, log: seq<Entry>, now: Time)
    requires forall i :: 0 <= i < |log| ==> !InWindow(rule, ip, log[i], now)
    ensures WindowCount(rule, ip, log, now) == 0
  {
    assert (set i | 0 <= i < |log| && InWindow(rule, ip, log[i], now)) == {};
  }

  lemma {:induction false} AddedOne(before: set<int>, after: set<int>, x: int, added: bool)
    requires x !in before
    requires forall i :: i in after <==> (i in before || (i == x && added))
    ensures |after| == |before| + (if added then 1 else 0)
  {
    var all := before + {x};
    if added {
      forall i
        ensures i in after <==> i in all
      {
      }
      assert after == all;
    } else {
      forall i
        ensures i in after <==> i in before
      {
      }
      assert after == before;
    }
  }

  lemma {:induction false} CountGrows(rule: Rule, ip: string, log: seq<Entry>, e: Entry, now: Time)
    ensures WindowCount(rule, ip, log + [e], now) ==
            WindowCount(rule, ip, log, now) + (if InWindow(rule, ip, e, now) then 1 else 0)
  {
    var all := log + [e];
    var before := set i | 0 <= i < |log| && InWindow(rule, ip, log[i], now);
    var after := set i | 0 <= i < |all| && InWindow(rule, ip, all[i], now);
    hide *;
    assert forall i :: 0 <= i < |log| ==> all[i] == log[i];
    assert all[|log|] == e;
    forall i
      ensures i in after <==> i in before || (i == |log| && InWindow(rule, ip, e, now))
    {
    }
    AddedOne(before, after, |log|, InWindow(rule, ip, e, now));
  }

  lemma {:induction false} CountIsRecent(rule: Rule, ip: string, log: seq<Entry>, now: Time)
    requires forall i :: 0 <= i < |log| ==> log[i].now <= now
    ensures WindowCount(rule, ip, log, now) == |Recent(Stamps(rule, ip, log), now - WindowOf(rule))|
  {
    if log == [] {
      CountNone(rule, ip, log, now);
    } else {
      var earlier, e := log[..|log| - 1], log[|log| - 1];
      SplitLast(log);
      CountIsRecent(rule, ip, earlier, now);
      CountGrows(rule, ip, earlier, e, now);
      RecentAppend(Stamps(rule, ip, earlier), e.now, now - WindowOf(rule));
    }
  }

  /** A sound stored history decides the threshold as the count over the log does. */
  lemma {:induction false} WindowDecides(rule: Rule, stored: seq<Time>, log: seq<Entry>, e: Entry)
    requires Selected(rule, e.ev) && RateLimited(rule) && Sound(rule, e.ev.remoteIP, stored, log, e.now)
    requires forall i :: 0 <= i < |log| ==> log[i].now <= e.now
    ensures |Recent(stored, e.now - WindowOf(rule))| + 1 >= rule.cond.threshold
            <==> WindowCount(rule, e.ev.remoteIP, log + [e], e.now) >= rule.cond.threshold
  {
    var ip := e.ev.remoteIP;
    CountIsRecent(rule, ip, log, e.now);
    CountGrows(rule, ip, log, e, e.now);
    hide Matches, Recent, Stamps, WindowCount;
    if WindowOf(rule) <= 0 {
      CountNone(rule, ip, log, e.now);
    }
  }

  // ---------- what the engine does and what it should do ----------

  /** Rule j must fire on e, the event that follows log: the specification, which counts over the log. */
  predicate Due(rules: seq<Rule>, log: seq<Entry>, e: Entry, j: nat)
    requires j < |rules|
  {
    && Selected(rules[j], e.ev)
    && (|| rules[j].cond.threshold <= 1 || rules[j].cond.windowSec <= 0
        || WindowCount(rules[j], e.ev.remoteIP, log + [e], e.now) >= rules[j].cond.threshold)
  }

  /** Rule j of the engine fires on e, with the history that log and the rules before j left. */
  predicate FiresOn(rules: seq<Rule>, log: seq<Entry>, e: Entry, j: nat)
    requires j < |rules|
  {
    Fires(HistoryAfter(HistoryOf(rules, log), rules, j, e.ev, e.now), rules[j], e.ev, e.now)
  }

  /** What firing and being due come to for a rate-limited rule that selects the event. */
  lemma {:induction false} Verdicts(rules: seq<Rule>, log: seq<Entry>, e: Entry, j: nat)
    requires j < |rules| && Counts(rules[j]) && Selected(rules[j], e.ev)
    ensures var rule := rules[j]; var h := HistoryAfter(HistoryOf(rules, log), rules, j, e.ev, e.now);
      && (FiresOn(rules, log, e, j) <==>
            |Recent(Lookup(h, Key(rule, e.ev.remoteIP)), e.now - WindowOf(rule))| + 1 >= rule.cond.threshold)
      && (Due(rules, log, e, j) <==>
            WindowCount(rule, e.ev.remoteIP, log + [e], e.now) >= rule.cond.threshold)
      && RateLimited(rule)
  {
    GatedExactly(rules[j]);
    hide Gated, Selected, Lookup, Recent, Key, WindowOf, WindowCount, HistoryAfter, HistoryOf;
  }

  // ---------- a lone rule ----------

  lemma {:induction false} LoneFires(rules: seq<Rule>, log: seq<Entry>, e: Entry, j: nat, ok: Addresses)
    requires j < |rules| && Counts(rules[j]) && Lone(rules, j, ok) && Selected(rules[j], e.ev)
    requires Clock(log + [e]) && From(log + [e], ok)
    ensures FiresOn(rules, log, e, j) <==> Due(rules, log, e, j)
  {
    hide *;
    var rule, ip := rules[j], e.ev.remoteIP;
    var h := HistoryOf(rules, log);
    Verdicts(rules, log, e, j);
    ClockBefore(log, e);
    FromAppend(log, e, ok);
    HistorySound(rules, log, j, ok, ip, e.now);
    OnlyOwnTurn(h, rules, j, j, ok, ip, e.ev, e.now);
    WindowDecides(rule, Lookup(h, Key(rule, ip)), log, e);
  }

  // ---------- no stored time lies in the future ----------

  ghost predicate NotAfter(s: seq<Time>, b: Time) {
    forall i :: 0 <= i < |s| ==> s[i] <= b
  }

  ghost predicate HistoryNotAfter(h: History, b: Time) {
    forall key :: NotAfter(Lookup(h, key), b)
  }

  lemma {:induction false} RecentNotAfter(s: seq<Time>, cutoff: Time, b: Time)
    requires NotAfter(s, b)
    ensures NotAfter(Recent(s, cutoff), b)
    ensures b <= cutoff ==> Recent(s, cutoff) == []
  {
    if s != [] {
      RecentNotAfter(s[..|s| - 1], cutoff, b);
      assert s[|s| - 1] <= b;
    }
  }

  lemma {:induction false} AppendNotAfter(s: seq<Time>, now: Time)
    requires NotAfter(s, now)
    ensures NotAfter(s + [now], now)
  {
  }

  lemma {:induction false} TouchNotAfter(h: History, rule: Rule, ev: Event, now: Time)
    requires HistoryNotAfter(h, now)
    ensures HistoryNotAfter(Touched(h, rule, ev, now), now)
  {
    hide Recent, WindowOf, Matches, Key, Lookup, Touched, NotAfter, Counts;
    forall key
      ensures NotAfter(Lookup(Touched(h, rule, ev, now), key), now)
    {
      assert NotAfter(Lookup(h, key), now);
      if Counts(rule) && Selected(rule, ev) && Key(rule, ev.remoteIP) == key {
        TouchHere(h, rule, ev, now);
        RecentNotAfter(Lookup(h, key), now - WindowOf(rule), now);
        AppendNotAfter(Recent(Lookup(h, key), now - WindowOf(rule)), now);
      } else {
        TouchElsewhere(h, rule, ev, now, key);
      }
    }
  }

  lemma {:induction false} AfterNotAfter(h: History, rules: seq<Rule>, n: nat, ev: Event, now: Time)
    requires HistoryNotAfter(h, now) && n <= |rules|
    ensures HistoryNotAfter(HistoryAfter(h, rules, n, ev, now), now)
  {
    hide HistoryNotAfter, Touched;
    if n > 0 {
      AfterNotAfter(h, rules, n - 1, ev, now);
      TouchNotAfter(HistoryAfter(h, rules, n - 1, ev, now), rules[n - 1], ev, now);
    }
  }

  lemma {:induction false} LaterNotAfter(h: History, a: Time, b: Time)
    requires HistoryNotAfter(h, a) && a <= b
    ensures HistoryNotAfter(h, b)
  {
    hide Lookup;
    forall key
      ensures NotAfter(Lookup(h, key), b)
    {
      assert NotAfter(Lookup(h, key), a);
    }
  }

  lemma {:induction false} NothingNotAfter(rules: seq<Rule>, b: Time)
    ensures HistoryNotAfter(HistoryOf(rules, []), b)
  {
  }

  lemma {:induction false} LogNotAfter(rules: seq<Rule>, log: seq<Entry>, b: Time)
    requires Clock(log) && (log != [] ==> log[|log| - 1].now <= b)
    ensures HistoryNotAfter(HistoryOf(rules, log), b)
  {
    hide *;
    if log != [] {
      var earlier, e := log[..|log| - 1], log[|log| - 1];
      SplitLast(log);
      ClockBefore(earlier, e);
      LogNotAfter(rules, earlier, e.now);
      HistoryAppend(rules, earlier, e);
      AfterNotAfter(HistoryOf(rules, earlier), rules, |rules|, e.ev, e.now);
      LaterNotAfter(HistoryOf(rules, log), e.now, b);
    } else {
      NothingNotAfter(rules, b);
    }
  }

  lemma {:induction false} EntryNotAfter(h: History, key: string, b: Time)
    requires HistoryNotAfter(h, b)
    ensures NotAfter(Lookup(h, key), b)
  {
  }

  // ---------- a window that wrapped to nothing ----------

  /** Such a rule never fires, and never should. */
  lemma {:induction false} NothingFires(rules: seq<Rule>, log: seq<Entry>, e: Entry, j: nat)
    requires j < |rules| && Counts(rules[j]) && !Positive(rules[j]) && Selected(rules[j], e.ev) && Clock(log + [e])
    ensures !FiresOn(rules, log, e, j) && !Due(rules, log, e, j)
  {
    hide *;
    var rule, ip := rules[j], e.ev.remoteIP;
    Verdicts(rules, log, e, j);
    ClockBefore(log, e);
    LogNotAfter(rules, log, e.now);
    AfterNotAfter(HistoryOf(rules, log), rules, j, e.ev, e.now);
    var h := HistoryAfter(HistoryOf(rules, log), rules, j, e.ev, e.now);
    EntryNotAfter(h, Key(rule, ip), e.now);
    NoWindow(rule, e.now);
    RecentNotAfter(Lookup(h, Key(rule, ip)), e.now - WindowOf(rule), e.now);
    NoneInWindow(rule, ip, log + [e], e.now);
    TwoOrMore(rule);
  }

  lemma {:induction false} TwoOrMore(rule: Rule)
    requires RateLimited(rule)
    ensures rule.cond.threshold >= 2
  {
  }

  lemma {:induction false} NoWindow(rule: Rule, now: Time)
    ensures !Positive(rule) <==> now <= now - WindowOf(rule)
  {
    hide WindowOf;
  }

  lemma {:induction false} NoneInWindow(rule: Rule, ip: string, log: seq<Entry>, now: Time)
    requires !Positive(rule)
    ensures WindowCount(rule, ip, log, now) == 0
  {
    hide WindowOf, Selected, WindowCount;
    CountNone(rule, ip, log, now);
  }

  // ---------- threshold two: only the newest time matters ----------

  /** The newest of the times comes last. */
  ghost predicate Topped(s: seq<Time>) {
    forall i :: 0 <= i < |s| ==> s[i] <= s[|s| - 1]
  }

  ghost predicate EndsAt(s: seq<Time>, t: Time) {
    s != [] && s[|s| - 1] == t && Topped(s)
  }

  ghost predicate SameNewest(stored: seq<Time>, stamps: seq<Time>) {
    (stored == [] && stamps == []) || exists t :: EndsAt(stored, t) && EndsAt(stamps, t)
  }

  lemma {:induction false} RecentOfTopped(s: seq<Time>, t: Time, cutoff: Time)
    requires EndsAt(s, t)
    ensures Recent(s, cutoff) != [] <==> t > cutoff
  {
    if t <= cutoff {
      RecentNotAfter(s, cutoff, t);
    }
  }

  lemma {:induction false} RecentOfNothing(cutoff: Time)
    ensures Recent([], cutoff) == []
  {
  }

  lemma {:induction false} SameNewestSeen(stored: seq<Time>, stamps: seq<Time>, cutoff: Time)
    requires SameNewest(stored, stamps)
    ensures Recent(stored, cutoff) == [] <==> Recent(stamps, cutoff) == []
  {
    hide Recent, EndsAt;
    if t :| EndsAt(stored, t) && EndsAt(stamps, t) {
      RecentOfTopped(stored, t, cutoff);
      RecentOfTopped(stamps, t, cutoff);
    } else {
      RecentOfNothing(cutoff);
    }
  }

  lemma {:induction false} ToppedBy(s: seq<Time>, now: Time)
    requires NotAfter(s, now)
    ensures EndsAt(s + [now], now)
  {
  }

  lemma {:induction false} SliceOfSlice(a: string, i: nat, n: nat, k: nat, m: nat)
    requires i + n <= |a| && k + m <= n
    ensures a[i..i + n][k..k + m] == a[i + k..i + k + m]
  {
    var s, t := a[i..i + n][k..k + m], a[i + k..i + k + m];
    assert forall q :: 0 <= q < m ==> s[q] == a[i..i + n][k + q] == a[i + (k + q)] == t[q];
    assert s == t;
  }

  lemma {:induction false} ContainsChain(a: string, b: string, c: string)
    requires Text.Contains(a, b) && Text.Contains(b, c)
    ensures Text.Contains(a, c)
  {
    var i :| 0 <= i <= |a| && Text.OccursAt(a, b, i);
    var k :| 0 <= k <= |b| && Text.OccursAt(b, c, k);
    SliceOfSlice(a, i, |b|, k, |c|);
    assert Text.OccursAt(a, c, i + k);
  }

  lemma {:induction false} UpperLength(s: string)
    ensures |Text.ToUpper(s)| == |s|
  {
  }

  lemma {:induction false} NothingContained(s: string, t: string)
    requires Text.Contains(s, t) && t != ""
    ensures s != ""
  {
  }

  lemma {:induction false} CoveredMatches(c: Condition, d: Condition, ev: Event)
    requires Covers(c, d) && Matches(d, ev)
    ensures Matches(c, ev)
  {
    hide Text.ToUpper, Text.Contains;
    if c.actionMatch != "" {
      var upper := Text.ToUpper(d.actionMatch);
      UpperLength(c.actionMatch);
      UpperLength(d.actionMatch);
      NothingContained(upper, Text.ToUpper(c.actionMatch));
      ContainsChain(Text.ToUpper(ev.action), upper, Text.ToUpper(c.actionMatch));
    }
  }

  /** A rule that writes the entry of rule j does so only after it, for events rule j counts. */
  lemma {:induction false} ToleratedWriter(
    rules: seq<Rule>, i: nat, j: nat, ok: Addresses, ip: string, ev: Event)
    requires i < |rules| && j < |rules| && i != j && Apart(rules, j, ok) && ok(ip) && ok(ev.remoteIP)
    requires Counts(rules[j]) && Counts(rules[i]) && Selected(rules[i], ev)
    requires Key(rules[i], ev.remoteIP) == Key(rules[j], ip)
    ensures j < i && ev.remoteIP == ip && Selected(rules[j], ev)
  {
    assert Meet(rules[j], rules[i], ok);
    assert Tolerated(rules, j, i);
    KeyOfName(rules[i], rules[j], ev.remoteIP, ip);
    hide Covers, Matches, Key;
    CoveredMatches(rules[j].cond, rules[i].cond, ev);
  }

  /** The entry of rule j is written, from its turn on, exactly for the events it counts. */
  lemma {:induction false} ToppedTurn(
    h: History, rules: seq<Rule>, n: nat, j: nat, ok: Addresses, ip: string, ev: Event, now: Time)
    requires n <= |rules| && j < |rules| && Counts(rules[j]) && Apart(rules, j, ok) && ok(ip) && ok(ev.remoteIP)
    requires HistoryNotAfter(h, now)
    ensures var key := Key(rules[j], ip); var after := Lookup(HistoryAfter(h, rules, n, ev, now), key);
      if n > j && Selected(rules[j], ev) && ev.remoteIP == ip then EndsAt(after, now) else after == Lookup(h, key)
  {
    hide *;
    if n == 0 {
      AfterNone(h, rules, ev, now);
    } else {
      ToppedTurn(h, rules, n - 1, j, ok, ip, ev, now);
      AfterStep(h, rules, n - 1, ev, now);
      AfterNotAfter(h, rules, n - 1, ev, now);
      var before, rule, key := HistoryAfter(h, rules, n - 1, ev, now), rules[n - 1], Key(rules[j], ip);
      EntryNotAfter(before, key, now);
      if Counts(rule) && Selected(rule, ev) && Key(rule, ev.remoteIP) == key {
        if n - 1 == j {
          KeyOfAddress(rule, ev.remoteIP, ip);
        } else {
          ToleratedWriter(rules, n - 1, j, ok, ip, ev);
        }
        TouchHere(before, rule, ev, now);
        RecentNotAfter(Lookup(before, key), now - WindowOf(rule), now);
        ToppedBy(Recent(Lookup(before, key), now - WindowOf(rule)), now);
      } else {
        if n - 1 == j {
          CountsItself(rules[j], ev, ip);
        }
        TouchElsewhere(before, rule, ev, now, key);
      }
    }
  }

  lemma {:induction false} CountsItself(rule: Rule, ev: Event, ip: string)
    ensures ev.remoteIP == ip ==> Key(rule, ev.remoteIP) == Key(rule, ip)
  {
  }

  lemma {:induction false} StampsAppend(rule: Rule, ip: string, log: seq<Entry>, e: Entry)
    ensures Stamps(rule, ip, log + [e]) ==
      if Selected(rule, e.ev) && e.ev.remoteIP == ip then Stamps(rule, ip, log) + [e.now] else Stamps(rule, ip, log)
  {
    DropLast(log, e);
    hide Matches;
  }

  lemma {:induction false} StampsNotAfter(rule: Rule, ip: string, log: seq<Entry>, b: Time)
    requires forall i :: 0 <= i < |log| ==> log[i].now <= b
    ensures NotAfter(Stamps(rule, ip, log), b)
  {
    if log != [] {
      StampsNotAfter(rule, ip, log[..|log| - 1], b);
      SplitLast(log);
      StampsAppend(rule, ip, log[..|log| - 1], log[|log| - 1]);
      hide Stamps, Matches;
    }
  }

  lemma {:induction false} BothEnd(stored: seq<Time>, stamps: seq<Time>, t: Time)
    requires EndsAt(stored, t) && EndsAt(stamps, t)
    ensures SameNewest(stored, stamps)
  {
  }

  lemma {:induction false} BothEmpty(rule: Rule, ip: string)
    ensures SameNewest([], Stamps(rule, ip, []))
  {
  }

  lemma {:induction false} NewestAgrees(rules: seq<Rule>, log: seq<Entry>, j: nat, ok: Addresses, ip: string)
    requires j < |rules| && Counts(rules[j]) && Apart(rules, j, ok) && From(log, ok) && ok(ip) && Clock(log)
    ensures SameNewest(Lookup(HistoryOf(rules, log), Key(rules[j], ip)), Stamps(rules[j], ip, log))
  {
    hide *;
    if log != [] {
      var earlier, e := log[..|log| - 1], log[|log| - 1];
      SplitLast(log);
      ClockBefore(earlier, e);
      FromAppend(earlier, e, ok);
      NewestAgrees(rules, earlier, j, ok, ip);
      LogNotAfter(rules, earlier, e.now);
      ToppedTurn(HistoryOf(rules, earlier), rules, |rules|, j, ok, ip, e.ev, e.now);
      HistoryAppend(rules, earlier, e);
      StampsAppend(rules[j], ip, earlier, e);
      if Selected(rules[j], e.ev) && e.ev.remoteIP == ip {
        StampsNotAfter(rules[j], ip, earlier, e.now);
        ToppedBy(Stamps(rules[j], ip, earlier), e.now);
        BothEnd(Lookup(HistoryOf(rules, log), Key(rules[j], ip)), Stamps(rules[j], ip, log), e.now);
      }
    } else {
      NoHistory(rules, Key(rules[j], ip));
      BothEmpty(rules[j], ip);
    }
  }

  lemma {:induction false} SecondFires(rules: seq<Rule>, log: seq<Entry>, e: Entry, j: nat, ok: Addresses)
    requires j < |rules| && Counts(rules[j]) && Positive(rules[j]) && Apart(rules, j, ok) && Selected(rules[j], e.ev)
    requires rules[j].cond.threshold == 2 && Clock(log + [e]) && From(log + [e], ok)
    ensures FiresOn(rules, log, e, j) <==> Due(rules, log, e, j)
  {
    hide *;
    var rule, ip := rules[j], e.ev.remoteIP;
    var h, cutoff := HistoryOf(rules, log), e.now - WindowOf(rule);
    Verdicts(rules, log, e, j);
    ClockBefore(log, e);
    FromAppend(log, e, ok);
    NewestAgrees(rules, log, j, ok, ip);
    LogNotAfter(rules, log, e.now);
    ToppedTurn(h, rules, j, j, ok, ip, e.ev, e.now);
    CountIsRecent(rule, ip, log, e.now);
    CountOneMore(rule, ip, log, e);
    SameNewestSeen(Lookup(h, Key(rule, ip)), Stamps(rule, ip, log), cutoff);
  }

  lemma {:induction false} CountOneMore(rule: Rule, ip: string, log: seq<Entry>, e: Entry)
    requires Positive(rule) && Selected(rule, e.ev) && e.ev.remoteIP == ip
    ensures WindowCount(rule, ip, log + [e], e.now) == WindowCount(rule, ip, log, e.now) + 1
  {
    hide WindowOf, Selected, WindowCount;
    CountGrows(rule, ip, log, e, e.now);
  }

  // ---------- any rule ----------

  lemma {:induction false} ApartIsLone(rules: seq<Rule>, j: nat, ok: Addresses)
    requires j < |rules| && Apart(rules, j, ok) && rules[j].cond.threshold != 2
    ensures Lone(rules, j, ok)
  {
    hide Meet, Counts, Positive, Covers;
  }

  /**
    Main result. Under a clock that never goes back and rules that keep their keys apart, rule j fires
    on an event exactly when it selects the event and, if rate-limited, the full log including this
    event holds at least Threshold selected events of the same address in the window (now - W, now].
   */
  lemma {:induction false} FiresExactly(rules: seq<Rule>, log: seq<Entry>, e: Entry, j: nat, ok: Addresses)
    requires Separate(rules, ok) && j < |rules| && Clock(log + [e]) && From(log + [e], ok)
    ensures FiresOn(rules, log, e, j) <==> Due(rules, log, e, j)
  {
    var rule := rules[j];
    assert Counts(rule) && Positive(rule) ==> Apart(rules, j, ok);
    hide Apart, Positive, Counts, Matches, Recent, WindowCount, HistoryAfter, HistoryOf, Clock, Lookup, Key, WindowOf, From;
    GatedExactly(rule);
    if Selected(rule, e.ev) && RateLimited(rule) {
      SelectedCounts(rule, e.ev);
      if !Positive(rule) {
        NothingFires(rules, log, e, j);
      } else if rule.cond.threshold == 2 {
        SecondFires(rules, log, e, j, ok);
      } else {
        ApartIsLone(rules, j, ok);
        LoneFires(rules, log, e, j, ok);
      }
    }
  }

  lemma {:induction false} SelectedCounts(rule: Rule, ev: Event)
    requires Selected(rule, ev) && RateLimited(rule)
    ensures Counts(rule)
  {
  }

  /** A rule that asks for more than one event never fires on the first one. */
  lemma {:induction false} NeverOnFirst(rules: seq<Rule>, e: Entry, j: nat, ok: Addresses)
    requires Separate(rules, ok) && j < |rules| && ok(e.ev.remoteIP)
    requires rules[j].cond.threshold > 1 && rules[j].cond.windowSec > 0
    ensures !FiresOn(rules, [], e, j)
  {
    var none: seq<Entry> := [];
    assert none + [e] == [e];
    FiresExactly(rules, none, e, j, ok);
    CountNone(rules[j], e.ev.remoteIP, none, e.now);
    CountGrows(rules[j], e.ev.remoteIP, none, e, e.now);
    hide WindowCount, FiresOn, Separate, Selected;
  }

  // ---------- what a rule selects ----------

  /** Only the decoy, the score and the action of an event decide. */
  lemma {:induction false} SelectsByFields(rule: Rule, ev: Event, other: Event)
    requires ev.decoyName == other.decoyName && ev.threatScore == other.threatScore && ev.action == other.action
    ensures Selected(rule, ev) <==> Selected(rule, other)
  {
    hide Text.Contains, Text.ToUpper;
  }

  /** A condition with nothing in it, or a star for the decoy, takes everything; a disabled rule takes nothing. */
  lemma {:induction false} SelectsAll(rule: Rule, ev: Event)
    requires rule.cond.decoy == "" || rule.cond.decoy == "*"
    requires rule.cond.minScore <= 0 && rule.cond.actionMatch == ""
    ensures Selected(rule, ev) <==> rule.enabled
  {
  }

  lemma {:induction false} SelectsDecoy(rule: Rule, ev: Event, name: string)
    requires Selected(rule, ev) && rule.cond.decoy != "" && rule.cond.decoy != "*"
    ensures ev.decoyName == rule.cond.decoy
    ensures Selected(rule, ev.(decoyName := name)) <==> name == rule.cond.decoy
  {
    hide Text.Contains, Text.ToUpper;
  }

  lemma {:induction false} SelectsScore(rule: Rule, ev: Event, score: int)
    requires Selected(rule, ev) && rule.cond.minScore > 0
    ensures ev.threatScore >= rule.cond.minScore
    ensures Selected(rule, ev.(threatScore := score)) <==> score >= rule.cond.minScore
  {
    hide Text.Contains, Text.ToUpper;
  }

  /** The ASCII letters in upper case, character by character. */
  function Upper(c: char): char {
    if 'a' <= c <= 'z' then c - 'a' + 'A' else c
  }

  /** p occurs in s, letter case aside. */
  predicate OccursFolded(s: string, p: string) {
    exists i :: 0 <= i <= |s| - |p| && FoldedAt(s, p, i)
  }

  predicate FoldedAt(s: string, p: string, i: nat)
    requires i + |p| <= |s|
  {
    forall k :: 0 <= k < |p| ==> Upper(s[i + k]) == Upper(p[k])
  }

  lemma {:induction false} OccursAtFolded(s: string, p: string, i: nat)
    requires i + |p| <= |s|
    ensures Text.OccursAt(Text.ToUpper(s), Text.ToUpper(p), i) <==> FoldedAt(s, p, i)
  {
    var u, v := Text.ToUpper(s), Text.ToUpper(p);
    assert |u| == |s| && |v| == |p|;
    var slice := u[i..i + |v|];
    assert forall k :: 0 <= k < |p| ==> slice[k] == u[i + k] == Upper(s[i + k]) && v[k] == Upper(p[k]);
    if slice == v {
      assert forall k :: 0 <= k < |p| ==> slice[k] == v[k];
    }
  }

  /** The action is matched as a part of the event's action, letter case aside. */
  lemma {:induction false} SelectsAction(rule: Rule, ev: Event, action: string)
    requires Selected(rule, ev)
    ensures Selected(rule, ev.(action := action)) <==> OccursFolded(action, rule.cond.actionMatch)
  {
    var p := rule.cond.actionMatch;
    var u, v := Text.ToUpper(action), Text.ToUpper(p);
    assert |u| == |action| && |v| == |p|;
    forall i: nat | i + |p| <= |action|
      ensures Text.OccursAt(u, v, i) <==> FoldedAt(action, p, i)
    {
      OccursAtFolded(action, p, i);
    }
    if p == "" {
      assert FoldedAt(action, p, 0);
    }
    hide Text.ToUpper, FoldedAt;
    if OccursFolded(action, p) {
      var i :| 0 <= i <= |action| - |p| && FoldedAt(action, p, i);
      assert Text.OccursAt(u, v, i);
    }
    if Text.Contains(u, v) {
      var i :| 0 <= i <= |u| && Text.OccursAt(u, v, i);
      assert FoldedAt(action, p, i);
    }
  }

  /** The window is WindowSec seconds exactly while the product still fits an int64 Duration. */
  lemma {:induction false} WindowExact(rule: Rule)
    requires rule.cond.windowSec > 0
    ensures WindowOf(rule) == rule.cond.windowSec * SECOND <==> rule.cond.windowSec <= 9223372036
  {
  }
}
