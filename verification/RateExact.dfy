// Exactly which rule lists count right: every other list is caught out by a few events at one instant.
module RateExact {
  import opened Basics
  import opened Events
  import opened Playbooks
  import opened RateProofs
  import Text

  // ---------- histories in which every time is the same ----------

  predicate AllAt(s: seq<Time>, t: Time) {
    forall i :: 0 <= i < |s| ==> s[i] == t
  }

  ghost predicate Flat(h: History, t: Time) {
    forall key :: AllAt(Lookup(h, key), t)
  }

  /** The rule writes the key when it looks at ev. */
  predicate Touches(rule: Rule, ev: Event, key: string) {
    Counts(rule) && Selected(rule, ev) && Key(rule, ev.remoteIP) == key
  }

  /** How long an entry of length z is after one rule, at the instant all its times carry. */
  function SizeStep(rule: Rule, ev: Event, key: string, z: nat): nat {
    if !Touches(rule, ev, key) then z else if Positive(rule) then z + 1 else 1
  }

  function Size(rules: seq<Rule>, n: nat, ev: Event, key: string, z: nat): nat
    requires n <= |rules|
  {
    if n == 0 then z else SizeStep(rules[n - 1], ev, key, Size(rules, n - 1, ev, key, z))
  }

  lemma {:induction false} RecentOfFlat(s: seq<Time>, t: Time, cutoff: Time)
    requires AllAt(s, t)
    ensures Recent(s, cutoff) == if cutoff < t then s else []
  {
    if s != [] {
      RecentOfFlat(s[..|s| - 1], t, cutoff);
      SplitLast(s);
    }
  }

  lemma {:induction false} FlatEntry(h: History, t: Time, key: string)
    requires Flat(h, t)
    ensures AllAt(Lookup(h, key), t)
  {
  }

  lemma {:induction false} FlatStep(h: History, rule: Rule, ev: Event, t: Time, key: string)
    requires Flat(h, t)
    ensures var after := Lookup(Touched(h, rule, ev, t), key);
      AllAt(after, t) && |after| == SizeStep(rule, ev, key, |Lookup(h, key)|)
  {
    var stored := Lookup(h, key);
    FlatEntry(h, t, key);
    hide Recent, WindowOf, Matches, Key, Lookup, Touched, Flat, Selected, AllAt;
    if Touches(rule, ev, key) {
      TouchHere(h, rule, ev, t);
      RecentOfFlat(stored, t, t - WindowOf(rule));
      FlatAppend(stored, t);
      FlatAppend([], t);
    } else {
      TouchElsewhere(h, rule, ev, t, key);
    }
  }

  lemma {:induction false} FlatAppend(s: seq<Time>, t: Time)
    ensures AllAt(s, t) ==> AllAt(s + [t], t)
    ensures AllAt([], t)
  {
  }

  lemma {:induction false} FlatTouched(h: History, rule: Rule, ev: Event, t: Time)
    requires Flat(h, t)
    ensures Flat(Touched(h, rule, ev, t), t)
  {
    hide Touched, Lookup, AllAt, SizeStep;
    forall key
      ensures AllAt(Lookup(Touched(h, rule, ev, t), key), t)
    {
      FlatStep(h, rule, ev, t, key);
    }
  }

  lemma {:induction false} FlatAfter(h: History, rules: seq<Rule>, n: nat, ev: Event, t: Time, key: string)
    requires Flat(h, t) && n <= |rules|
    ensures var after := HistoryAfter(h, rules, n, ev, t);
      Flat(after, t) && |Lookup(after, key)| == Size(rules, n, ev, key, |Lookup(h, key)|)
  {
    hide Touched, Lookup, Flat, SizeStep;
    if n > 0 {
      FlatAfter(h, rules, n - 1, ev, t, key);
      FlatStep(HistoryAfter(h, rules, n - 1, ev, t), rules[n - 1], ev, t, key);
      FlatTouched(HistoryAfter(h, rules, n - 1, ev, t), rules[n - 1], ev, t);
    }
  }

  // ---------- repeating one event ----------

  function Repeat(e: Entry, n: nat): (log: seq<Entry>)
    ensures |log| == n && forall i :: 0 <= i < n ==> log[i] == e
  {
    seq(n, i => e)
  }

  function Grown(rules: seq<Rule>, ev: Event, key: string, z: nat, n: nat): nat {
    if n == 0 then z else Size(rules, |rules|, ev, key, Grown(rules, ev, key, z, n - 1))
  }

  lemma {:induction false} RepeatStep(log: seq<Entry>, e: Entry, n: nat)
    requires n > 0
    ensures log + Repeat(e, n) == log + Repeat(e, n - 1) + [e]
  {
  }

  lemma {:induction false} FlatRepeat(rules: seq<Rule>, log: seq<Entry>, e: Entry, n: nat, key: string)
    requires Flat(HistoryOf(rules, log), e.now)
    ensures Flat(HistoryOf(rules, log + Repeat(e, n)), e.now)
    ensures |Lookup(HistoryOf(rules, log + Repeat(e, n)), key)|
            == Grown(rules, e.ev, key, |Lookup(HistoryOf(rules, log), key)|, n)
  {
    hide Flat, Lookup, HistoryAfter, HistoryOf, Size, Repeat;
    if n == 0 {
      assert Repeat(e, 0) == [];
      assert log + Repeat(e, 0) == log;
    } else {
      FlatRepeat(rules, log, e, n - 1, key);
      RepeatStep(log, e, n);
      HistoryAppend(rules, log + Repeat(e, n - 1), e);
      FlatAfter(HistoryOf(rules, log + Repeat(e, n - 1)), rules, |rules|, e.ev, e.now, key);
    }
  }

  lemma {:induction false} FlatNothing(rules: seq<Rule>, t: Time, key: string)
    ensures Flat(HistoryOf(rules, []), t) && |Lookup(HistoryOf(rules, []), key)| == 0
  {
  }

  /** At one instant, a rule that can fire does so exactly when its entry, at its turn, is long enough. */
  lemma {:induction false} FiresBySize(rules: seq<Rule>, log: seq<Entry>, e: Entry, j: nat, key: string)
    requires j < |rules| && Touches(rules[j], e.ev, key) && Positive(rules[j]) && Flat(HistoryOf(rules, log), e.now)
    ensures FiresOn(rules, log, e, j) <==>
      Size(rules, j, e.ev, key, |Lookup(HistoryOf(rules, log), key)|) + 1 >= rules[j].cond.threshold
  {
    hide *;
    var h := HistoryAfter(HistoryOf(rules, log), rules, j, e.ev, e.now);
    TouchesIs(rules[j], e.ev, key);
    Verdicts(rules, log, e, j);
    FlatAfter(HistoryOf(rules, log), rules, j, e.ev, e.now, key);
    FlatEntry(h, e.now, key);
    RecentOfFlat(Lookup(h, key), e.now, e.now - WindowOf(rules[j]));
    NoWindow(rules[j], e.now);
  }

  lemma {:induction false} TouchesIs(rule: Rule, ev: Event, key: string)
    ensures Touches(rule, ev, key) <==> Counts(rule) && Selected(rule, ev) && Key(rule, ev.remoteIP) == key
  {
    hide Counts, Selected, Key;
  }

  // ---------- how entries grow ----------

  /** Some rule writes the key and has no window: it sets the length, whatever it was. */
  lemma {:induction false} SizeReset(rules: seq<Rule>, n: nat, m: nat, ev: Event, key: string, a: nat, b: nat)
    requires m < n <= |rules| && Touches(rules[m], ev, key) && !Positive(rules[m])
    ensures Size(rules, n, ev, key, a) == Size(rules, n, ev, key, b)
    decreases n
  {
    hide Touches, Positive;
    if m < n - 1 {
      SizeReset(rules, n - 1, m, ev, key, a, b);
    }
  }

  predicate NoReset(rules: seq<Rule>, ev: Event, key: string) {
    forall m :: 0 <= m < |rules| && Touches(rules[m], ev, key) ==> Positive(rules[m])
  }

  lemma {:induction false} SizeGrows(rules: seq<Rule>, n: nat, ev: Event, key: string, z: nat)
    requires n <= |rules| && NoReset(rules, ev, key)
    ensures Size(rules, n, ev, key, z) >= z
    ensures forall i :: 0 <= i < n && Touches(rules[i], ev, key) ==> Size(rules, n, ev, key, z) >= z + 1
    ensures forall i, j :: 0 <= i < j < n && Touches(rules[i], ev, key) && Touches(rules[j], ev, key) ==>
      Size(rules, n, ev, key, z) >= z + 2
    decreases n
  {
    hide Touches, Positive;
    if n > 0 {
      SizeGrows(rules, n - 1, ev, key, z);
    }
  }

  /** Once written, an entry is never empty again. */
  lemma {:induction false} SizeStays(rules: seq<Rule>, n: nat, ev: Event, key: string, z: nat)
    requires n <= |rules|
    ensures z >= 1 ==> Size(rules, n, ev, key, z) >= 1
    ensures forall i :: 0 <= i < n && Touches(rules[i], ev, key) ==> Size(rules, n, ev, key, z) >= 1
    decreases n
  {
    hide Touches, Positive;
    if n > 0 {
      SizeStays(rules, n - 1, ev, key, z);
    }
  }

  /** Only rule i writes the key. */
  predicate Sole(rules: seq<Rule>, i: nat, ev: Event, key: string) {
    forall m :: 0 <= m < |rules| && Touches(rules[m], ev, key) ==> m == i
  }

  lemma {:induction false} SoleSize(rules: seq<Rule>, i: nat, n: nat, ev: Event, key: string, z: nat)
    requires n <= |rules| && Sole(rules, i, ev, key) && i < |rules| && Touches(rules[i], ev, key) && Positive(rules[i])
    ensures Size(rules, n, ev, key, z) == if n > i then z + 1 else z
    decreases n
  {
    hide Touches, Positive;
    if n > 0 {
      SoleSize(rules, i, n - 1, ev, key, z);
    }
  }

  lemma {:induction false} SoleGrown(rules: seq<Rule>, i: nat, ev: Event, key: string, z: nat, n: nat)
    requires Sole(rules, i, ev, key) && i < |rules| && Touches(rules[i], ev, key) && Positive(rules[i])
    ensures Grown(rules, ev, key, z, n) == z + n
  {
    hide Touches, Positive, Sole, Size;
    if n > 0 {
      SoleGrown(rules, i, ev, key, z, n - 1);
      SoleSize(rules, i, |rules|, ev, key, z + (n - 1));
    }
  }

  lemma {:induction false} DoubleGrown(rules: seq<Rule>, i: nat, j: nat, ev: Event, key: string, n: nat)
    requires i < |rules| && j < |rules| && i != j && Touches(rules[i], ev, key) && Touches(rules[j], ev, key)
    requires NoReset(rules, ev, key)
    ensures Grown(rules, ev, key, 0, n) >= 2 * n
  {
    hide Touches, Positive, NoReset, Size;
    if n > 0 {
      DoubleGrown(rules, i, j, ev, key, n - 1);
      SizeGrows(rules, |rules|, ev, key, Grown(rules, ev, key, 0, n - 1));
    }
  }

  // ---------- events for a rule ----------

  lemma {:induction false} MatchesItself(s: string)
    ensures Text.Contains(Text.ToUpper(s), Text.ToUpper(s))
  {
    assert Text.OccursAt(Text.ToUpper(s), Text.ToUpper(s), 0);
  }

  /** An event the condition matches. */
  function EventFor(c: Condition, ip: string): (ev: Event)
    ensures Matches(c, ev) && ev.remoteIP == ip
  {
    MatchesItself(c.actionMatch);
    Event("", 0, c.decoy, "", ip, 0, 0, "", c.minScore, c.actionMatch, "", "", "", [], None, map[])
  }

  /** An event d matches, and c does not unless it covers d. */
  function EventOutside(c: Condition, d: Condition, ip: string): (ev: Event)
    ensures Matches(d, ev) && ev.remoteIP == ip && (Matches(c, ev) ==> Covers(c, d))
  {
    MatchesItself(d.actionMatch);
    var decoy := if Wild(d) then c.decoy + "x" else d.decoy;
    var score := if d.minScore > 0 then d.minScore else c.minScore - 1;
    assert |c.decoy + "x"| == |c.decoy| + 1;
    Event("", 0, decoy, "", ip, 0, 0, "", score, d.actionMatch, "", "", "", [], None, map[])
  }

  // ---------- counting such logs ----------

  lemma {:induction false} CountAll(rule: Rule, ip: string, log: seq<Entry>, now: Time)
    requires forall i :: 0 <= i < |log| ==> InWindow(rule, ip, log[i], now)
    ensures WindowCount(rule, ip, log, now) == |log|
  {
    if log == [] {
      CountNone(rule, ip, log, now);
    } else {
      SplitLast(log);
      CountAll(rule, ip, log[..|log| - 1], now);
      CountGrows(rule, ip, log[..|log| - 1], log[|log| - 1], now);
      hide InWindow, WindowCount;
    }
  }

  lemma {:induction false} CountBut(rule: Rule, ip: string, log: seq<Entry>, now: Time)
    requires log != [] && !InWindow(rule, ip, log[0], now)
    ensures WindowCount(rule, ip, log, now) < |log|
  {
    hide InWindow, WindowCount;
    var init, last := log[..|log| - 1], log[|log| - 1];
    SplitLast(log);
    CountGrows(rule, ip, init, last, now);
    if |log| == 1 {
      CountNone(rule, ip, init, now);
      assert last == log[0];
    } else {
      assert init[0] == log[0];
      CountBut(rule, ip, init, now);
    }
  }

  predicate AtOnce(log: seq<Entry>, t: Time) {
    forall i :: 0 <= i < |log| ==> log[i].now == t
  }

  lemma {:induction false} AtOnceIsClock(log: seq<Entry>, t: Time)
    requires AtOnce(log, t)
    ensures Clock(log)
  {
  }

  // ---------- misfires ----------

  /** A log, an event and a rule on which the engine and the counting specification differ. */
  ghost predicate Misfires(rules: seq<Rule>, ok: Addresses, log: seq<Entry>, e: Entry, j: nat) {
    && j < |rules| && Clock(log + [e]) && From(log + [e], ok)
    && !(FiresOn(rules, log, e, j) <==> Due(rules, log, e, j))
  }

  /** Rule j can fire, and selects e, an event of address ip at time zero. */
  predicate Ready(rules: seq<Rule>, ok: Addresses, j: nat, e: Entry) {
    j < |rules| && Counts(rules[j]) && Positive(rules[j]) && Selected(rules[j], e.ev) && ok(e.ev.remoteIP) && e.now == 0
  }

  lemma {:induction false} DueByCount(rules: seq<Rule>, log: seq<Entry>, e: Entry, j: nat)
    requires j < |rules| && Counts(rules[j]) && Selected(rules[j], e.ev)
    ensures Due(rules, log, e, j) <==>
      WindowCount(rules[j], e.ev.remoteIP, log + [e], e.now) >= rules[j].cond.threshold
  {
    Verdicts(rules, log, e, j);
    hide *;
  }

  /** Before e come copies of e alone; all of them count. */
  lemma {:induction false} RepeatedDue(rules: seq<Rule>, ok: Addresses, e: Entry, n: nat, j: nat, key: string)
    requires Ready(rules, ok, j, e) && key == Key(rules[j], e.ev.remoteIP)
    ensures Clock(Repeat(e, n) + [e]) && From(Repeat(e, n) + [e], ok)
    ensures Due(rules, Repeat(e, n), e, j) <==> n + 1 >= rules[j].cond.threshold
    ensures FiresOn(rules, Repeat(e, n), e, j) <==>
      Size(rules, j, e.ev, key, Grown(rules, e.ev, key, 0, n)) + 1 >= rules[j].cond.threshold
  {
    var log := Repeat(e, n);
    var all := log + [e];
    assert forall i :: 0 <= i < |all| ==> all[i] == e;
    AtOnceIsClock(all, e.now);
    FlatNothing(rules, e.now, key);
    FlatRepeat(rules, [], e, n, key);
    assert [] + log == log;
    assert forall i :: 0 <= i < |all| ==> InWindow(rules[j], e.ev.remoteIP, all[i], e.now);
    hide Repeat, Flat, Lookup, HistoryAfter, HistoryOf, Size, Grown, Recent, Matches, Key, WindowOf, WindowCount, Due, FiresOn,
         Clock, InWindow;
    CountAll(rules[j], e.ev.remoteIP, all, e.now);
    DueByCount(rules, log, e, j);
    FiresBySize(rules, log, e, j, key);
  }

  /** Another rule writes the key of rule j for an event rule j counts, and the threshold is at least three. */
  lemma {:induction false} SharedEventMisfires(
    rules: seq<Rule>, ok: Addresses, e: Entry, j: nat, m: nat, key: string) returns (log: seq<Entry>)
    requires Ready(rules, ok, j, e) && key == Key(rules[j], e.ev.remoteIP) && rules[j].cond.threshold >= 3
    requires m < |rules| && m != j && Touches(rules[m], e.ev, key)
    ensures Misfires(rules, ok, log, e, j)
  {
    var n := rules[j].cond.threshold - 2;
    RepeatedDue(rules, ok, e, n, j, key);
    RepeatedDue(rules, ok, e, n + 1, j, key);
    assert Touches(rules[j], e.ev, key);
    var a, b, c := Grown(rules, e.ev, key, 0, n - 1), Grown(rules, e.ev, key, 0, n), Grown(rules, e.ev, key, 0, n + 1);
    assert b == Size(rules, |rules|, e.ev, key, a) && c == Size(rules, |rules|, e.ev, key, b);
    hide Repeat, Size, Grown, Key, Due, FiresOn, Clock, Touches, Positive, Matches;
    if NoReset(rules, e.ev, key) {
      DoubleGrown(rules, j, m, e.ev, key, n);
      SizeGrows(rules, j, e.ev, key, b);
      log := Repeat(e, n);
    } else {
      var r :| 0 <= r < |rules| && Touches(rules[r], e.ev, key) && !Positive(rules[r]);
      SizeReset(rules, |rules|, r, e.ev, key, a, b);
      log := if FiresOn(rules, Repeat(e, n), e, j) then Repeat(e, n) else Repeat(e, n + 1);
    }
  }

  /** An event that rule j does not count leaves something in rule j's entry. */
  lemma {:induction false} ForeignLeaves(
    rules: seq<Rule>, ok: Addresses, past: Entry, e: Entry, n: nat, j: nat, m: nat, key: string)
    requires Ready(rules, ok, j, e) && key == Key(rules[j], e.ev.remoteIP) && past.now == 0 && ok(past.ev.remoteIP)
    requires past.ev.remoteIP != e.ev.remoteIP || !Selected(rules[j], past.ev)
    requires m < |rules| && Touches(rules[m], past.ev, key)
    ensures var log := [past] + Repeat(e, n); var z := Size(rules, |rules|, past.ev, key, 0);
      && Clock(log + [e]) && From(log + [e], ok) && z >= 1
      && (Due(rules, log, e, j) ==> n + 1 >= rules[j].cond.threshold)
      && (FiresOn(rules, log, e, j) <==>
            Size(rules, j, e.ev, key, Grown(rules, e.ev, key, z, n)) + 1 >= rules[j].cond.threshold)
  {
    var log := [past] + Repeat(e, n);
    var all := log + [e];
    assert forall i :: 0 < i < |all| ==> all[i] == e;
    assert all[0] == past;
    AtOnceIsClock(all, 0);
    SizeStays(rules, |rules|, past.ev, key, 0);
    FlatNothing(rules, 0, key);
    assert [] + [past] == [past];
    HistoryAppend(rules, [], past);
    FlatAfter(HistoryOf(rules, []), rules, |rules|, past.ev, 0, key);
    FlatRepeat(rules, [past], e, n, key);
    assert !InWindow(rules[j], e.ev.remoteIP, all[0], 0);
    hide Repeat, Flat, Lookup, HistoryAfter, HistoryOf, Size, Grown, Recent, Matches, Key, WindowOf, WindowCount, Due, FiresOn,
         Clock, InWindow;
    CountBut(rules[j], e.ev.remoteIP, all, 0);
    DueByCount(rules, log, e, j);
    FiresBySize(rules, log, e, j, key);
  }

  lemma {:induction false} ForeignEventMisfires(
    rules: seq<Rule>, ok: Addresses, past: Entry, e: Entry, j: nat, m: nat, key: string) returns (log: seq<Entry>)
    requires Ready(rules, ok, j, e) && key == Key(rules[j], e.ev.remoteIP) && past.now == 0 && ok(past.ev.remoteIP)
    requires past.ev.remoteIP != e.ev.remoteIP || !Selected(rules[j], past.ev)
    requires m < |rules| && Touches(rules[m], past.ev, key)
    requires rules[j].cond.threshold == 2 || Sole(rules, j, e.ev, key)
    ensures Misfires(rules, ok, log, e, j)
  {
    var n := rules[j].cond.threshold - 2;
    ForeignLeaves(rules, ok, past, e, n, j, m, key);
    log := [past] + Repeat(e, n);
    var z := Size(rules, |rules|, past.ev, key, 0);
    assert Touches(rules[j], e.ev, key);
    hide Repeat, Size, Key, Due, FiresOn, Clock, Touches, Positive, Matches, Sole;
    if n == 0 {
      SizeStays(rules, j, e.ev, key, z);
    } else {
      SoleGrown(rules, j, e.ev, key, z, n);
      SoleSize(rules, j, j, e.ev, key, z + n);
    }
  }

  /** An earlier rule writes the key for the same event, so a rule with threshold two fires at once. */
  lemma {:induction false} EarlierRuleMisfires(rules: seq<Rule>, ok: Addresses, e: Entry, j: nat, m: nat, key: string)
    requires Ready(rules, ok, j, e) && key == Key(rules[j], e.ev.remoteIP) && rules[j].cond.threshold == 2
    requires m < j && Touches(rules[m], e.ev, key)
    ensures Misfires(rules, ok, Repeat(e, 0), e, j)
  {
    RepeatedDue(rules, ok, e, 0, j, key);
    SizeStays(rules, j, e.ev, key, Grown(rules, e.ev, key, 0, 0));
    hide Repeat, Size, Grown, Key, Due, FiresOn, Clock, Touches, Positive, Matches;
  }

  lemma {:induction false} SameKeyName(a: Rule, b: Rule, ip: string)
    requires Key(a, ip) == Key(b, ip)
    ensures a.name == b.name
  {
    assert |a.name| == |b.name|;
    assert Key(a, ip)[..|a.name|] == a.name && Key(b, ip)[..|b.name|] == b.name;
  }

  lemma {:induction false} SelectsItsOwn(rule: Rule, ip: string)
    requires Counts(rule)
    ensures Selected(rule, EventFor(rule.cond, ip)) && Touches(rule, EventFor(rule.cond, ip), Key(rule, ip))
  {
    hide EventFor, Matches, Key;
  }

  /** Two rules, the first with a threshold of three or more, that meet at addresses y and x. */
  lemma {:induction false} HighThresholdMisfires(rules: seq<Rule>, ok: Addresses, i: nat, j: nat, y: string, x: string)
    returns (log: seq<Entry>, e: Entry)
    requires i < |rules| && j < |rules| && i != j && Counts(rules[i]) && Positive(rules[i]) && Counts(rules[j])
    requires ok(x) && ok(y) && Key(rules[i], y) == Key(rules[j], x) && rules[i].cond.threshold >= 3
    ensures Misfires(rules, ok, log, e, i)
  {
    var key := Key(rules[i], y);
    var past := Entry(EventFor(rules[j].cond, x), 0);
    e := Entry(EventFor(rules[i].cond, y), 0);
    SelectsItsOwn(rules[i], y);
    SelectsItsOwn(rules[j], x);
    hide EventFor, Matches, Key, Repeat, Positive, Touches, Counts, Misfires;
    if x == y && Selected(rules[i], past.ev) {
      e := past;
      log := SharedEventMisfires(rules, ok, e, i, j, key);
    } else if Sole(rules, i, e.ev, key) {
      log := ForeignEventMisfires(rules, ok, past, e, i, j, key);
    } else {
      var m :| 0 <= m < |rules| && Touches(rules[m], e.ev, key) && m != i;
      log := SharedEventMisfires(rules, ok, e, i, m, key);
    }
  }

  lemma {:induction false} LowThresholdMisfires(rules: seq<Rule>, ok: Addresses, i: nat, j: nat, y: string, x: string)
    returns (log: seq<Entry>, e: Entry, k: nat)
    requires i < |rules| && j < |rules| && i != j && Counts(rules[i]) && Positive(rules[i]) && Counts(rules[j])
    requires ok(x) && ok(y) && Key(rules[i], y) == Key(rules[j], x) && rules[i].cond.threshold == 2
    requires !Tolerated(rules, i, j)
    ensures Misfires(rules, ok, log, e, k)
  {
    var key := Key(rules[i], y);
    k, e := i, Entry(EventFor(rules[i].cond, y), 0);
    SelectsItsOwn(rules[i], y);
    SelectsItsOwn(rules[j], x);
    if x == y {
      SameKeyName(rules[i], rules[j], y);
    }
    var shared := Entry(EventOutside(rules[i].cond, rules[j].cond, x), 0);
    assert Selected(rules[j], shared.ev) && Touches(rules[j], shared.ev, key);
    hide EventFor, EventOutside, Covers, Matches, Key, Repeat, Positive, Misfires;
    if x != y || !Selected(rules[i], shared.ev) {
      log := ForeignEventMisfires(rules, ok, shared, e, i, j, key);
    } else if j < i {
      EarlierRuleMisfires(rules, ok, shared, i, j, key);
      log, e := Repeat(shared, 0), shared;
    } else {
      k, e := j, shared;
      assert Touches(rules[i], shared.ev, key);
      if rules[j].cond.threshold == 2 {
        EarlierRuleMisfires(rules, ok, shared, j, i, key);
        log := Repeat(shared, 0);
      } else {
        log := SharedEventMisfires(rules, ok, shared, j, i, key);
      }
    }
  }

  /** The engine judges every event of every log, with such addresses, as counting over the full log would. */
  ghost predicate CountsRight(rules: seq<Rule>, ok: Addresses) {
    forall log, e, j: nat | j < |rules| && Clock(log + [e]) && From(log + [e], ok) ::
      FiresOn(rules, log, e, j) <==> Due(rules, log, e, j)
  }

  /**
    Main result. For any rules and any shape of addresses: the pruned history decides every event of every
    log as the full log does if and only if the rules keep their keys apart.
   */
  lemma {:induction false} CountsRightExactly(rules: seq<Rule>, ok: Addresses)
    ensures CountsRight(rules, ok) <==> Separate(rules, ok)
  {
    hide FiresOn, Due, Clock, From, Counts, Positive, Tolerated, Key;
    if Separate(rules, ok) {
      forall log, e, j: nat | j < |rules| && Clock(log + [e]) && From(log + [e], ok)
        ensures FiresOn(rules, log, e, j) <==> Due(rules, log, e, j)
      {
        FiresExactly(rules, log, e, j, ok);
      }
    } else {
      var i: nat :| i < |rules| && Counts(rules[i]) && Positive(rules[i]) && !Apart(rules, i, ok);
      var j: nat :| j < |rules| && j != i && Counts(rules[j]) && Meet(rules[i], rules[j], ok) && !Tolerated(rules, i, j);
      var y, x :| ok(y) && ok(x) && Key(rules[i], y) == Key(rules[j], x);
      ThresholdAtLeastTwo(rules[i]);
      if rules[i].cond.threshold == 2 {
        var log, e, k := LowThresholdMisfires(rules, ok, i, j, y, x);
      } else {
        var log, e := HighThresholdMisfires(rules, ok, i, j, y, x);
      }
    }
  }

  lemma {:induction false} ThresholdAtLeastTwo(rule: Rule)
    requires Counts(rule)
    ensures rule.cond.threshold >= 2
  {
  }

  // ---------- which names meet ----------

  /** One name is the other, or continues it after a colon. */
  predicate Related(a: Rule, b: Rule) {
    a.name + ":" <= b.name + ":" || b.name + ":" <= a.name + ":"
  }

  /** What the longer of two related names adds, with its colon: the start of the address it stands for. */
  function Extra(a: Rule, b: Rule): string
    requires a.name + ":" <= b.name + ":"
  {
    (b.name + ":")[|a.name| + 1..]
  }

  /** When two keys are equal, the shorter name's address starts with what the longer name adds. */
  lemma {:induction false} MeetingAddresses(a: Rule, b: Rule, x: string, y: string)
    requires a.name + ":" <= b.name + ":"
    ensures Key(a, x) == Key(b, y) <==> x == Extra(a, b) + y
  {
    var p, z := a.name + ":", Extra(a, b);
    assert b.name + ":" == p + z;
    ConcatAssociative(p, z, y);
    assert (p + x)[|p|..] == x && (p + (z + y))[|p|..] == z + y;
  }

  lemma {:induction false} SharedKeyRelates(a: Rule, b: Rule, x: string, y: string)
    requires Key(a, x) == Key(b, y)
    ensures Related(a, b)
  {
    var s, p, q := Key(a, x), a.name + ":", b.name + ":";
    assert s == p + x == q + y;
    var n := Min(|p|, |q|);
    assert p[..n] == s[..n] == q[..n];
  }

  function Anything(): Addresses {
    s => true
  }

  /** With any string for an address, two rules meet exactly when their names are related. */
  lemma {:induction false} MeetAnywhere(a: Rule, b: Rule)
    ensures Meet(a, b, Anything()) <==> Related(a, b)
  {
    if a.name + ":" <= b.name + ":" {
      MeetingAddresses(a, b, Extra(a, b) + "", "");
      assert Anything()("") && Anything()(Extra(a, b) + "");
    } else if b.name + ":" <= a.name + ":" {
      MeetingAddresses(b, a, Extra(b, a) + "", "");
      assert Anything()("") && Anything()(Extra(b, a) + "");
    }
    if x, y :| Key(a, x) == Key(b, y) {
      SharedKeyRelates(a, b, x, y);
    }
  }

  predicate AddressChar(c: char) {
    '0' <= c <= '9' || 'a' <= c <= 'f' || c == '.' || c == ':'
  }

  predicate AddressChars(s: string) {
    forall i :: 0 <= i < |s| ==> AddressChar(s[i])
  }

  /** IPv4 and IPv6 addresses as net.IP prints them: digits, a to f, dots and colons. */
  function IPAddresses(): Addresses {
    s => s != "" && AddressChars(s)
  }

  lemma {:induction false} CharsConcat(s: string, t: string)
    ensures AddressChars(s + t) <==> AddressChars(s) && AddressChars(t)
  {
    var u := s + t;
    assert forall i :: 0 <= i < |s| ==> u[i] == s[i];
    assert forall i :: 0 <= i < |t| ==> u[|s| + i] == t[i];
  }

  /** Two names meet on addresses: one is the other, or adds to it nothing an address could not start with. */
  predicate RelatedOnIPs(a: Rule, b: Rule) {
    || (a.name + ":" <= b.name + ":" && AddressChars(Extra(a, b)))
    || (b.name + ":" <= a.name + ":" && AddressChars(Extra(b, a)))
  }

  lemma {:induction false} MeetOneWay(a: Rule, b: Rule)
    requires a.name + ":" <= b.name + ":"
    ensures (exists x, y :: IPAddresses()(x) && IPAddresses()(y) && Key(a, x) == Key(b, y)) <==> AddressChars(Extra(a, b))
  {
    var z := Extra(a, b);
    hide Key, Extra;
    if AddressChars(z) {
      CharsConcat(z, "1");
      MeetingAddresses(a, b, z + "1", "1");
      assert IPAddresses()(z + "1") && IPAddresses()("1");
    }
    if x, y :| IPAddresses()(x) && IPAddresses()(y) && Key(a, x) == Key(b, y) {
      MeetingAddresses(a, b, x, y);
      CharsConcat(z, y);
    }
  }

  /** Exactly which rules can share a key on real addresses. */
  lemma {:induction false} MeetOnIPs(a: Rule, b: Rule)
    ensures Meet(a, b, IPAddresses()) <==> RelatedOnIPs(a, b)
  {
    hide Key, Extra, AddressChars;
    if a.name + ":" <= b.name + ":" {
      MeetOneWay(a, b);
    }
    if b.name + ":" <= a.name + ":" {
      MeetOneWay(b, a);
    }
    if x, y :| IPAddresses()(x) && IPAddresses()(y) && Key(a, x) == Key(b, y) {
      SharedKeyRelates(a, b, x, y);
    }
  }
}
