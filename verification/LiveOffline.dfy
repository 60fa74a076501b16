// The campaigns tracked live and the campaigns rebuilt from the log agree.
module LiveOffline {
  import opened Basics
  import opened Events
  import opened Lists
  import opened Sessions
  import opened Correlators
  import opened CampaignProofs
  import opened EventFlow
  import L = IntelLog

  /** An event, or a campaign, less its metadata. */
  function Strip(e: Event): Event {
    e.(metadata := map[])
  }

  function Bare(c: Campaign): Campaign {
    c.(metadata := map[])
  }

  ghost predicate SameButMetadata(xs: seq<Event>, ys: seq<Event>) {
    |xs| == |ys| && forall i :: 0 <= i < |xs| ==> Strip(xs[i]) == Strip(ys[i])
  }

  // ---------- summaries do not depend on metadata otherwise ----------

  lemma {:induction false} StripFields(x: Event, y: Event)
    requires Strip(x) == Strip(y)
    ensures x.timestamp == y.timestamp && x.remoteIP == y.remoteIP && x.threatScore == y.threatScore
    ensures DecoyOf(x) == DecoyOf(y) && IdOf(x) == IdOf(y) && ActionOf(x) == ActionOf(y)
    ensures TacticOf(x) == TacticOf(y) && TechniqueOf(x) == TechniqueOf(y)
    ensures UsernameOf(x) == UsernameOf(y) && CommandOf(x) == CommandOf(y)
  {
    assert Strip(x).timestamp == x.timestamp && Strip(x).mitre == x.mitre;
    assert Strip(y).timestamp == y.timestamp && Strip(y).mitre == y.mitre;
    assert Strip(x).id == x.id && Strip(y).id == y.id;
    assert Strip(x).decoyName == x.decoyName && Strip(y).decoyName == y.decoyName;
    assert Strip(x).action == x.action && Strip(y).action == y.action;
    assert Strip(x).username == x.username && Strip(y).username == y.username;
    assert Strip(x).command == x.command && Strip(y).command == y.command;
    assert Strip(x).remoteIP == x.remoteIP && Strip(y).remoteIP == y.remoteIP;
    assert Strip(x).threatScore == x.threatScore && Strip(y).threatScore == y.threatScore;
  }

  lemma {:induction false} SameProjection(xs: seq<Event>, ys: seq<Event>, f: Event -> string)
    requires |xs| == |ys| && forall i :: 0 <= i < |xs| ==> f(xs[i]) == f(ys[i])
    ensures Project(xs, f) == Project(ys, f)
  {
  }

  lemma {:induction false} SameScores(xs: seq<Event>, ys: seq<Event>)
    requires |xs| == |ys| && forall i :: 0 <= i < |xs| ==> xs[i].threatScore == ys[i].threatScore
    ensures MaxScore(xs) == MaxScore(ys)
  {
    if xs != [] {
      SameScores(xs[1..], ys[1..]);
    }
  }

  lemma {:induction false} SameRolls(xs: seq<Event>, ys: seq<Event>)
    requires SameButMetadata(xs, ys)
    ensures Project(xs, DecoyOf) == Project(ys, DecoyOf) && Project(xs, IdOf) == Project(ys, IdOf)
    ensures Project(xs, ActionOf) == Project(ys, ActionOf) && Project(xs, TacticOf) == Project(ys, TacticOf)
    ensures Project(xs, TechniqueOf) == Project(ys, TechniqueOf)
    ensures Project(xs, UsernameOf) == Project(ys, UsernameOf) && Project(xs, CommandOf) == Project(ys, CommandOf)
    ensures MaxScore(xs) == MaxScore(ys)
  {
    forall i | 0 <= i < |xs|
      ensures xs[i].threatScore == ys[i].threatScore
      ensures DecoyOf(xs[i]) == DecoyOf(ys[i]) && IdOf(xs[i]) == IdOf(ys[i]) && ActionOf(xs[i]) == ActionOf(ys[i])
      ensures TacticOf(xs[i]) == TacticOf(ys[i]) && TechniqueOf(xs[i]) == TechniqueOf(ys[i])
      ensures UsernameOf(xs[i]) == UsernameOf(ys[i]) && CommandOf(xs[i]) == CommandOf(ys[i])
    {
      StripFields(xs[i], ys[i]);
    }
    hide Strip, DecoyOf, IdOf, ActionOf, TacticOf, TechniqueOf, UsernameOf, CommandOf, Project;
    SameProjection(xs, ys, DecoyOf);
    SameProjection(xs, ys, IdOf);
    SameProjection(xs, ys, ActionOf);
    SameProjection(xs, ys, TacticOf);
    SameProjection(xs, ys, TechniqueOf);
    SameProjection(xs, ys, UsernameOf);
    SameProjection(xs, ys, CommandOf);
    SameScores(xs, ys);
  }

  lemma {:induction false} SameSummary(w: Window, xs: seq<Event>, ys: seq<Event>)
    requires SameButMetadata(xs, ys) && xs != []
    ensures Bare(Summarise(w, xs)) == Bare(Summarise(w, ys))
  {
    SameRolls(xs, ys);
    StripFields(xs[0], ys[0]);
    StripFields(xs[|xs| - 1], ys[|ys| - 1]);
    SummaryOfFields(w, xs, ys);
  }

  lemma {:induction false} SummaryOfFields(w: Window, xs: seq<Event>, ys: seq<Event>)
    requires |xs| == |ys| > 0 && xs[0].remoteIP == ys[0].remoteIP && xs[0].timestamp == ys[0].timestamp
    requires xs[|xs| - 1].timestamp == ys[|ys| - 1].timestamp && MaxScore(xs) == MaxScore(ys)
    requires Project(xs, DecoyOf) == Project(ys, DecoyOf) && Project(xs, IdOf) == Project(ys, IdOf)
    requires Project(xs, ActionOf) == Project(ys, ActionOf) && Project(xs, TacticOf) == Project(ys, TacticOf)
    requires Project(xs, TechniqueOf) == Project(ys, TechniqueOf)
    requires Project(xs, UsernameOf) == Project(ys, UsernameOf) && Project(xs, CommandOf) == Project(ys, CommandOf)
    ensures Bare(Summarise(w, xs)) == Bare(Summarise(w, ys))
  {
    hide Project, MaxScore, Uniq, NonEmpty, Collapse, Grouping, CampaignID, MergedMetadata, Notes;
  }

  lemma {:induction false} SameSession(w: Window, xs: seq<Event>, ys: seq<Event>, start: nat)
    requires SameButMetadata(xs, ys) && IsLastSession(w, xs, start)
    ensures IsLastSession(w, ys, start)
  {
    forall i | 0 <= i < |xs|
      ensures xs[i].timestamp == ys[i].timestamp
    {
      StripFields(xs[i], ys[i]);
    }
  }

  lemma {:induction false} SessionInRange(w: Window, s: seq<Event>, start: nat)
    requires IsLastSession(w, s, start)
    ensures start < |s|
  {
  }

  lemma {:induction false} SameSuffix(xs: seq<Event>, ys: seq<Event>, a: nat)
    requires SameButMetadata(xs, ys) && a <= |xs|
    ensures SameButMetadata(xs[a..], ys[a..])
  {
  }

  /** Two streams whose events of ip differ only in metadata give ip the same campaign less metadata. */
  lemma {:induction false} SameCampaign(w: Window, xs: seq<Event>, ys: seq<Event>, ip: string)
    requires SameButMetadata(SubStream(xs, ip), SubStream(ys, ip))
    ensures ip in Replay(w, xs) <==> ip in Replay(w, ys)
    ensures ip in Replay(w, xs) ==> Bare(Replay(w, xs)[ip]) == Bare(Replay(w, ys)[ip])
  {
    hide Replay, Bare, Summarise, SubStream, Strip, IsLastSession;
    var a := EntryIsLastSession(w, xs, ip);
    var b := EntryIsLastSession(w, ys, ip);
    var s, t := SubStream(xs, ip), SubStream(ys, ip);
    if s != [] {
      SameSession(w, s, t, a);
      LastSessionUnique(w, t, a, b);
      SessionInRange(w, s, a);
      SameSuffix(s, t, a);
      SameSummary(w, s[a..], t[a..]);
    }
  }

  // ---------- what was ingested and what was written ----------

  function Written(env: Env, arrivals: seq<Arrival>): seq<Event> {
    L.Outcomes(PersistCalls(env, arrivals), false)
  }

  ghost predicate NoFaultFor(arrivals: seq<Arrival>, ip: string) {
    forall i :: 0 <= i < |arrivals| && arrivals[i].ev.remoteIP == ip ==> !arrivals[i].fault
  }

  /** No event of ip was captured. */
  ghost predicate NoCaptureFor(env: Env, arrivals: seq<Arrival>, ip: string) {
    forall i :: 0 <= i < |arrivals| && arrivals[i].ev.remoteIP == ip ==>
      CaptureOf(env, arrivals[..i], arrivals[i]) == None
  }

  lemma {:induction false} WrittenAppend(env: Env, arrivals: seq<Arrival>)
    requires arrivals != []
    ensures var a := arrivals[|arrivals| - 1]; var earlier := Written(env, arrivals[..|arrivals| - 1]);
      Written(env, arrivals) == if a.fault then earlier else earlier + [Outgoing(env, arrivals[..|arrivals| - 1], a)]
  {
    var init, a := arrivals[..|arrivals| - 1], arrivals[|arrivals| - 1];
    DropLast(PersistCalls(env, init), L.Call(Outgoing(env, init, a), a.fault));
    hide Outgoing;
  }

  lemma {:induction false} SunkOnlyAddsMetadata(env: Env, earlier: seq<Arrival>, a: Arrival)
    ensures var x := Scored(env, a.ev); var y := Outgoing(env, earlier, a);
      && Strip(x) == Strip(y) && x.remoteIP == y.remoteIP == a.ev.remoteIP
      && y.mitre.Some? && Mapped(env, y) == y && (CaptureOf(env, earlier, a) == None ==> x == y)
  {
    hide CaptureOf;
  }

  lemma {:induction false} SamePlusOne(xs: seq<Event>, ys: seq<Event>, x: Event, y: Event)
    requires SameButMetadata(xs, ys) && Strip(x) == Strip(y)
    ensures SameButMetadata(xs + [x], ys + [y])
  {
  }

  /** What ip's log entries and ip's ingested events have in common. */
  ghost predicate Paired(env: Env, arrivals: seq<Arrival>, ip: string) {
    var s, t := SubStream(Ingested(env, arrivals), ip), SubStream(Written(env, arrivals), ip);
    SameButMetadata(s, t) && (NoCaptureFor(env, arrivals, ip) ==> s == t)
  }

  lemma {:induction false} WrittenPairs(env: Env, arrivals: seq<Arrival>, ip: string)
    requires NoFaultFor(arrivals, ip)
    ensures Paired(env, arrivals, ip)
  {
    if arrivals != [] {
      var init, a := arrivals[..|arrivals| - 1], arrivals[|arrivals| - 1];
      WrittenPairs(env, init, ip);
      WrittenAppend(env, arrivals);
      SunkOnlyAddsMetadata(env, init, a);
      var x, y := Scored(env, a.ev), Outgoing(env, init, a);
      var s, t := SubStream(Ingested(env, init), ip), SubStream(Written(env, init), ip);
      SubStreamAppend(Ingested(env, init), x, ip);
      SubStreamAppend(Written(env, init), y, ip);
      NoCaptureInit(env, arrivals, ip);
      hide Written, Scored, Outgoing, CaptureOf, SubStream;
      if a.ev.remoteIP == ip {
        SamePlusOne(s, t, x, y);
      } else {
        assert s + [] == s && t + [] == t;
      }
    }
  }

  lemma {:induction false} NoCaptureInit(env: Env, arrivals: seq<Arrival>, ip: string)
    requires arrivals != []
    ensures NoCaptureFor(env, arrivals, ip) ==>
      NoCaptureFor(env, arrivals[..|arrivals| - 1], ip)
      && (arrivals[|arrivals| - 1].ev.remoteIP == ip ==>
            CaptureOf(env, arrivals[..|arrivals| - 1], arrivals[|arrivals| - 1]) == None)
  {
    var init := arrivals[..|arrivals| - 1];
    hide CaptureOf;
    forall i | 0 <= i < |init|
      ensures init[..i] == arrivals[..i] && init[i] == arrivals[i]
    {
    }
  }

  lemma {:induction false} WrittenIsMapped(env: Env, arrivals: seq<Arrival>)
    ensures forall i :: 0 <= i < |Written(env, arrivals)| ==> Mapped(env, Written(env, arrivals)[i]) == Written(env, arrivals)[i]
  {
    if arrivals != [] {
      var init, a := arrivals[..|arrivals| - 1], arrivals[|arrivals| - 1];
      WrittenIsMapped(env, init);
      WrittenAppend(env, arrivals);
      SunkOnlyAddsMetadata(env, init, a);
      hide Written, Scored, Outgoing, CaptureOf, Mapped;
    }
  }

  /** The rebuild replays exactly the events that were written: none needs mapping again. */
  lemma {:induction false} RebuildReplaysWritten(env: Env, arrivals: seq<Arrival>)
    requires L.Lossless(env.codec)
    ensures Rebuild(env, LiveRun(env, arrivals).log) == Replay(env.window, Written(env, arrivals))
  {
    var calls, evs := PersistCalls(env, arrivals), Written(env, arrivals);
    LiveRunIs(env, arrivals);
    L.LogIsSuccesses(env.codec, calls);
    L.LogReadsBack(env.codec, evs);
    WrittenIsMapped(env, arrivals);
    WrittenIs(env, arrivals);
    RebuildIs(env, L.LogAfter(env.codec, calls));
    hide *;
    NothingRemapped(env, evs);
  }

  lemma {:induction false} WrittenIs(env: Env, arrivals: seq<Arrival>)
    ensures Written(env, arrivals) == L.Outcomes(PersistCalls(env, arrivals), false)
  {
    hide L.Outcomes, PersistCalls;
  }

  lemma {:induction false} RebuildIs(env: Env, log: string)
    ensures Rebuild(env, log) == Replay(env.window, Remapped(env, L.LastOf(L.Logged(env.codec, log), 0)))
  {
    hide Replay, Remapped, L.LastOf, L.Logged;
  }

  lemma {:induction false} NothingRemapped(env: Env, evs: seq<Event>)
    requires forall i :: 0 <= i < |evs| ==> Mapped(env, evs[i]) == evs[i]
    ensures Remapped(env, evs) == evs
  {
    hide Mapped;
  }

  /**
    Main result. From an empty log, for every address none of whose events failed to persist, the
    campaign rebuilt offline exists exactly when the live one does and equals it in every field but
    Metadata - and in Metadata too when none of its events triggered a capture. Persist failures of other
    addresses do not matter.
   */
  lemma {:induction false} LiveEqualsOffline(env: Env, arrivals: seq<Arrival>, ip: string)
    requires L.Lossless(env.codec) && NoFaultFor(arrivals, ip)
    ensures var w := LiveRun(env, arrivals); var offline := Rebuild(env, w.log);
      && (ip in w.campaigns <==> ip in offline)
      && (ip in offline ==> Bare(w.campaigns[ip]) == Bare(offline[ip]))
      && (ip in offline && NoCaptureFor(env, arrivals, ip) ==> w.campaigns[ip] == offline[ip])
  {
    LiveRunIs(env, arrivals);
    RebuildReplaysWritten(env, arrivals);
    WrittenPairs(env, arrivals, ip);
    var xs, ys := Ingested(env, arrivals), Written(env, arrivals);
    SameCampaign(env.window, xs, ys, ip);
    if NoCaptureFor(env, arrivals, ip) {
      InterleavingIrrelevant(env.window, xs, ys, ip);
    }
    hide Rebuild, LiveRun, Replay, Bare, Written;
  }

  // ---------- exactly which lost writes matter ----------

  /** For each event of ip, whether it was written. */
  function Persisted(arrivals: seq<Arrival>, ip: string): seq<bool> {
    if arrivals == [] then []
    else
      var a := arrivals[|arrivals| - 1];
      Persisted(arrivals[..|arrivals| - 1], ip) + (if a.ev.remoteIP == ip then [!a.fault] else [])
  }

  function Kept(s: seq<Event>, keep: seq<bool>): seq<Event>
    requires |s| == |keep|
  {
    if s == [] then []
    else
      var n := |s| - 1;
      Kept(s[..n], keep[..n]) + (if keep[n] then [s[n]] else [])
  }

  lemma {:induction false} KeptAppend(s: seq<Event>, keep: seq<bool>, e: Event, k: bool)
    requires |s| == |keep|
    ensures Kept(s + [e], keep + [k]) == if k then Kept(s, keep) + [e] else Kept(s, keep)
  {
    DropLast(s, e);
    DropLast(keep, k);
  }

  lemma {:induction false} KeptConcat(s: seq<Event>, keep: seq<bool>, a: nat)
    requires |s| == |keep| && a <= |s|
    ensures Kept(s, keep) == Kept(s[..a], keep[..a]) + Kept(s[a..], keep[a..])
  {
    var n := |s| - 1;
    if a == |s| {
      assert s[..a] == s && keep[..a] == keep;
    } else {
      KeptConcat(s[..n], keep[..n], a);
      assert s[..n][..a] == s[..a] && keep[..n][..a] == keep[..a];
      assert s[..n][a..] == s[a..][..n - a] && keep[..n][a..] == keep[a..][..n - a];
      assert s[a..][n - a] == s[n] && keep[a..][n - a] == keep[n];
      ConcatAssociative(Kept(s[..a], keep[..a]), Kept(s[a..n], keep[a..n]), if keep[n] then [s[n]] else []);
    }
  }

  lemma {:induction false} KeptMembers(s: seq<Event>, keep: seq<bool>)
    requires |s| == |keep|
    ensures forall e :: e in Kept(s, keep) ==> e in s
    ensures |Kept(s, keep)| <= |s|
    ensures |Kept(s, keep)| == |s| <==> forall i :: 0 <= i < |s| ==> keep[i]
    ensures |Kept(s, keep)| == |s| ==> Kept(s, keep) == s
  {
    if s != [] {
      var n := |s| - 1;
      KeptMembers(s[..n], keep[..n]);
      SplitLast(s);
    }
  }

  /** What was written for ip is what was kept of what was ingested for it, up to metadata. */
  lemma {:induction false} WrittenIsKept(env: Env, arrivals: seq<Arrival>, ip: string)
    ensures var s, keep := SubStream(Ingested(env, arrivals), ip), Persisted(arrivals, ip);
      |s| == |keep| && SameButMetadata(Kept(s, keep), SubStream(Written(env, arrivals), ip))
  {
    if arrivals != [] {
      var init, a := arrivals[..|arrivals| - 1], arrivals[|arrivals| - 1];
      WrittenIsKept(env, init, ip);
      WrittenAppend(env, arrivals);
      SunkOnlyAddsMetadata(env, init, a);
      var x, y := Scored(env, a.ev), Outgoing(env, init, a);
      SubStreamAppend(Ingested(env, init), x, ip);
      SubStreamAppend(Written(env, init), y, ip);
      var s, keep, t := SubStream(Ingested(env, init), ip), Persisted(init, ip), SubStream(Written(env, init), ip);
      hide Written, Scored, Outgoing, CaptureOf, SubStream, Kept;
      if a.ev.remoteIP == ip {
        KeptAppend(s, keep, x, !a.fault);
        SamePlusOne(Kept(s, keep), t, x, y);
      } else {
        assert s + [] == s && t + [] == t && keep + [] == keep;
      }
    }
  }

  /** Times are non-zero and never go back. */
  ghost predicate Orderly(s: seq<Event>) {
    && (forall i :: 0 <= i < |s| ==> s[i].timestamp != ZERO_TIME)
    && (forall i, j :: 0 <= i <= j < |s| ==> s[i].timestamp <= s[j].timestamp)
  }

  /** Every event before the last session is a session break away from every event in it. */
  lemma {:induction false} SessionsFarApart(w: Window, s: seq<Event>, a: nat, p: Event, q: Event)
    requires Orderly(s) && IsLastSession(w, s, a) && p in s[..a] && q in s[a..]
    ensures Breaks(w, p, q) && (w.length >= 0 ==> p.timestamp < q.timestamp)
  {
    var i :| 0 <= i < a && s[i] == p;
    var j :| a <= j < |s| && s[j] == q;
    assert s[i].timestamp <= s[a - 1].timestamp && s[a].timestamp <= s[j].timestamp;
    assert Breaks(w, s[a - 1], s[a]);
  }

  lemma {:induction false} BreakBounds(w: Window, u: seq<Event>, v: seq<Event>, b: nat)
    requires u != [] && v != [] && Breaks(w, u[|u| - 1], v[0]) && IsLastSession(w, u + v, b)
    ensures b >= |u|
  {
    var s := u + v;
    assert s[|u| - 1] == u[|u| - 1] && s[|u|] == v[0];
  }

  /** When all of the last session is kept, it is the last session of what is kept. */
  lemma {:induction false} WholeSessionKept(w: Window, s: seq<Event>, a: nat, u: seq<Event>)
    requires Orderly(s) && IsLastSession(w, s, a) && forall e :: e in u ==> e in s[..a]
    ensures IsLastSession(w, u + s[a..], |u|)
  {
    var v := s[a..];
    var k := u + v;
    if u != [] {
      assert u[|u| - 1] in u;
      assert v[0] in v;
      SessionsFarApart(w, s, a, u[|u| - 1], v[0]);
    }
    forall i | |u| < i < |k|
      ensures !Breaks(w, k[i - 1], k[i])
    {
      assert k[i] == s[a + i - |u|] && k[i - 1] == s[a + i - |u| - 1];
    }
  }

  lemma {:induction false} BareTells(c: Campaign, d: Campaign)
    requires c.totalEvents != d.totalEvents || c.lastSeen != d.lastSeen
    ensures Bare(c) != Bare(d)
  {
    assert Bare(c).totalEvents == c.totalEvents && Bare(c).lastSeen == c.lastSeen;
    assert Bare(d).totalEvents == d.totalEvents && Bare(d).lastSeen == d.lastSeen;
  }

  /** When part of the last session is lost, what is kept is summarised differently. */
  lemma {:induction false} PartLostShows(w: Window, s: seq<Event>, a: nat, u: seq<Event>, v: seq<Event>, b: nat)
    requires Orderly(s) && IsLastSession(w, s, a) && w.length >= 0
    requires (forall e :: e in u ==> e in s[..a]) && (forall e :: e in v ==> e in s[a..])
    requires |v| < |s| - a && IsLastSession(w, u + v, b)
    ensures Bare(Summarise(w, (u + v)[b..])) != Bare(Summarise(w, s[a..]))
  {
    hide *;
    var k, last := u + v, s[a..];
    SessionInRange(w, s, a);
    SessionInRange(w, k, b);
    if v == [] {
      assert k == u;
      LateLoss(w, s, a, u);
    } else if u != [] {
      EarlyLoss(w, s, a, u, v, b);
    }
    LengthOrEnd(k, b, s, a);
    SummaryTells(w, k[b..]);
    SummaryTells(w, last);
    BareTells(Summarise(w, k[b..]), Summarise(w, last));
  }

  lemma {:induction false} LengthOrEnd(k: seq<Event>, b: nat, s: seq<Event>, a: nat)
    requires b < |k| && a < |s|
    ensures k[b..][|k| - b - 1] == k[|k| - 1] && s[a..][|s| - a - 1] == s[|s| - 1]
  {
  }

  /** Nothing of the last session is kept: what is kept ends earlier. */
  lemma {:induction false} LateLoss(w: Window, s: seq<Event>, a: nat, u: seq<Event>)
    requires Orderly(s) && IsLastSession(w, s, a) && w.length >= 0
    requires u != [] && forall e :: e in u ==> e in s[..a]
    ensures u[|u| - 1].timestamp < s[|s| - 1].timestamp
  {
    assert u[|u| - 1] in u;
    assert s[a..][|s| - a - 1] == s[|s| - 1];
    SessionsFarApart(w, s, a, u[|u| - 1], s[|s| - 1]);
  }

  /** Something of it is kept: a session break separates that from anything before. */
  lemma {:induction false} EarlyLoss(w: Window, s: seq<Event>, a: nat, u: seq<Event>, v: seq<Event>, b: nat)
    requires Orderly(s) && IsLastSession(w, s, a) && u != [] && v != []
    requires (forall e :: e in u ==> e in s[..a]) && (forall e :: e in v ==> e in s[a..])
    requires IsLastSession(w, u + v, b)
    ensures b >= |u|
  {
    assert u[|u| - 1] in u && v[0] in v;
    SessionsFarApart(w, s, a, u[|u| - 1], v[0]);
    BreakBounds(w, u, v, b);
  }

  predicate AllFrom(s: seq<Event>, ip: string) {
    forall i :: 0 <= i < |s| ==> s[i].remoteIP == ip
  }

  lemma {:induction false} OwnStream(s: seq<Event>, ip: string)
    requires AllFrom(s, ip)
    ensures SubStream(s, ip) == s
  {
    if s != [] {
      OwnStream(s[1..], ip);
      assert [s[0]] + s[1..] == s;
    }
  }

  lemma {:induction false} KeptFrom(s: seq<Event>, keep: seq<bool>, ip: string)
    requires |s| == |keep| && AllFrom(s, ip)
    ensures AllFrom(Kept(s, keep), ip)
  {
    KeptMembers(s, keep);
    var k := Kept(s, keep);
    forall i | 0 <= i < |k|
      ensures k[i].remoteIP == ip
    {
      assert k[i] in s;
    }
  }

  lemma {:induction false} EntryOf(w: Window, s: seq<Event>, ip: string, a: nat)
    requires AllFrom(s, ip) && IsLastSession(w, s, a)
    ensures ip in Replay(w, s) && Replay(w, s)[ip] == Summarise(w, s[a..])
  {
    OwnStream(s, ip);
    SessioniserCorrect(w, s, ip);
    hide Summarise, Replay;
  }

  lemma {:induction false} SomeLastSession(w: Window, s: seq<Event>) returns (a: nat)
    requires s != []
    ensures IsLastSession(w, s, a)
  {
    if |s| == 1 {
      a := 0;
    } else {
      var init, e := s[..|s| - 1], s[|s| - 1];
      a := SomeLastSession(w, init);
      LastSessionGrows(w, init, e, a);
      SplitLast(s);
      a := if Breaks(w, init[|init| - 1], e) then |init| else a;
    }
  }

  /** Whether ip's entries in two maps agree, metadata aside. */
  predicate SameEntry(m: Campaigns, n: Campaigns, ip: string) {
    (ip in m <==> ip in n) && (ip in m && ip in n ==> Bare(m[ip]) == Bare(n[ip]))
  }

  /** The core, for one address: its events, and those of them that are kept. */
  lemma {:induction false} KeptSameExactly(w: Window, s: seq<Event>, keep: seq<bool>, ip: string, a: nat)
    requires |s| == |keep| && Orderly(s) && w.length >= 0 && IsLastSession(w, s, a) && AllFrom(s, ip)
    ensures SameEntry(Replay(w, s), Replay(w, Kept(s, keep)), ip) <==> forall i :: 0 <= i < |s| - a ==> keep[a..][i]
  {
    SessionInRange(w, s, a);
    hide *;
    var u, v, k := Kept(s[..a], keep[..a]), Kept(s[a..], keep[a..]), Kept(s, keep);
    KeptConcat(s, keep, a);
    KeptMembers(s[..a], keep[..a]);
    KeptMembers(s[a..], keep[a..]);
    KeptFrom(s, keep, ip);
    if |v| == |s| - a {
      WholeKeptSame(w, s, ip, a, u, v);
    } else {
      PartKeptOther(w, s, ip, a, u, v);
    }
  }

  lemma {:induction false} WholeKeptSame(w: Window, s: seq<Event>, ip: string, a: nat, u: seq<Event>, last: seq<Event>)
    requires Orderly(s) && IsLastSession(w, s, a) && a < |s| && last == s[a..]
    requires AllFrom(s, ip) && AllFrom(u + last, ip) && forall e :: e in u ==> e in s[..a]
    ensures SameEntry(Replay(w, s), Replay(w, u + last), ip)
  {
    hide *;
    var k := u + last;
    EntryOf(w, s, ip, a);
    WholeSessionKept(w, s, a, u);
    AfterPrefix(u, last);
    EntryOf(w, k, ip, |u|);
    SameEntryIs(Replay(w, s), Replay(w, k), ip);
  }

  lemma {:induction false} AfterPrefix(u: seq<Event>, v: seq<Event>)
    ensures (u + v)[|u|..] == v
  {
  }

  lemma {:induction false} PartKeptOther(w: Window, s: seq<Event>, ip: string, a: nat, u: seq<Event>, v: seq<Event>)
    requires Orderly(s) && IsLastSession(w, s, a) && w.length >= 0 && AllFrom(s, ip) && AllFrom(u + v, ip)
    requires (forall e :: e in u ==> e in s[..a]) && (forall e :: e in v ==> e in s[a..]) && |v| < |s| - a
    ensures !SameEntry(Replay(w, s), Replay(w, u + v), ip)
  {
    hide *;
    var k := u + v;
    EntryOf(w, s, ip, a);
    SameEntryIs(Replay(w, s), Replay(w, k), ip);
    if k != [] {
      var b := SomeLastSession(w, k);
      EntryOf(w, k, ip, b);
      PartLostShows(w, s, a, u, v, b);
    } else {
      NothingReplayed(w);
    }
  }

  lemma {:induction false} SameEntryIs(m: Campaigns, n: Campaigns, ip: string)
    requires ip in m
    ensures SameEntry(m, n, ip) <==> ip in n && Bare(m[ip]) == Bare(n[ip])
  {
    hide Bare;
  }

  lemma {:induction false} NothingReplayed(w: Window)
    ensures Replay(w, []) == map[]
  {
  }

  /** Every event of ip's last live session was written. */
  ghost predicate LastSessionWritten(env: Env, arrivals: seq<Arrival>, ip: string) {
    var s, keep := SubStream(Ingested(env, arrivals), ip), Persisted(arrivals, ip);
    forall a: nat, i: nat :: IsLastSession(env.window, s, a) && a <= i < |keep| ==> keep[i]
  }

  /**
    Main result. For an address whose times are non-zero and never go back, the campaign rebuilt offline
    and the live one agree - both absent, or equal in every field but Metadata - if and only if no event of
    its last live session failed to persist.
   */
  lemma {:induction false} LiveEqualsOfflineExactly(env: Env, arrivals: seq<Arrival>, ip: string)
    requires L.Lossless(env.codec) && env.window.length >= 0
    requires Orderly(SubStream(Ingested(env, arrivals), ip))
    ensures var w := LiveRun(env, arrivals);
      SameEntry(w.campaigns, Rebuild(env, w.log), ip) <==> LastSessionWritten(env, arrivals, ip)
  {
    var xs, ys := Ingested(env, arrivals), Written(env, arrivals);
    var s, keep := SubStream(xs, ip), Persisted(arrivals, ip);
    LiveRunIs(env, arrivals);
    RebuildReplaysWritten(env, arrivals);
    WrittenIsKept(env, arrivals, ip);
    hide Rebuild, LiveRun, Replay, Bare, Written, Ingested, Kept, Orderly, Persisted, SubStream, Strip, IsLastSession;
    FromStreams(env.window, xs, ys, ip, s, keep);
    if s != [] {
      var a := SomeLastSession(env.window, s);
      SessionInRange(env.window, s, a);
      SubStreamIsOfIP(xs, ip);
      KeptSameExactly(env.window, s, keep, ip, a);
      LastSessionIs(env, arrivals, ip, a);
    }
  }

  lemma {:induction false} LastSessionIs(env: Env, arrivals: seq<Arrival>, ip: string, a: nat)
    requires var s, keep := SubStream(Ingested(env, arrivals), ip), Persisted(arrivals, ip);
      |s| == |keep| && IsLastSession(env.window, s, a)
    ensures var keep := Persisted(arrivals, ip);
      a <= |keep| && (LastSessionWritten(env, arrivals, ip) <==> forall i :: 0 <= i < |keep| - a ==> keep[a..][i])
  {
    var s, keep := SubStream(Ingested(env, arrivals), ip), Persisted(arrivals, ip);
    SessionInRange(env.window, s, a);
    forall other: nat | IsLastSession(env.window, s, other)
      ensures other == a
    {
      LastSessionUnique(env.window, s, a, other);
    }
    hide IsLastSession, SubStream, Ingested, Persisted;
    assert forall i: nat :: a <= i < |keep| ==> keep[a..][i - a] == keep[i];
  }

  /** ip's entries depend on ip's own events alone, and on their metadata only in Metadata. */
  lemma {:induction false} FromStreams(
    w: Window, xs: seq<Event>, ys: seq<Event>, ip: string, s: seq<Event>, keep: seq<bool>)
    requires s == SubStream(xs, ip) && |s| == |keep| && SameButMetadata(Kept(s, keep), SubStream(ys, ip))
    ensures SameEntry(Replay(w, xs), Replay(w, ys), ip) <==> SameEntry(Replay(w, s), Replay(w, Kept(s, keep)), ip)
    ensures s == [] ==> SameEntry(Replay(w, xs), Replay(w, ys), ip)
  {
    var k := Kept(s, keep);
    assert s == [] ==> k == [];
    SubStreamIsOfIP(xs, ip);
    KeptFrom(s, keep, ip);
    OwnStream(s, ip);
    OwnStream(k, ip);
    hide Replay, Bare, Kept, SubStream, Strip;
    InterleavingIrrelevant(w, xs, s, ip);
    SameCampaign(w, k, ys, ip);
    NothingReplayed(w);
  }

  /** Whatever the times, an address is known live if it sent an event, and offline if one was written. */
  lemma {:induction false} KnownExactly(env: Env, arrivals: seq<Arrival>, ip: string)
    requires L.Lossless(env.codec)
    ensures var w := LiveRun(env, arrivals);
      && (ip in w.campaigns <==> exists i :: 0 <= i < |arrivals| && arrivals[i].ev.remoteIP == ip)
      && (ip in Rebuild(env, w.log) <==>
            exists i :: 0 <= i < |arrivals| && arrivals[i].ev.remoteIP == ip && !arrivals[i].fault)
  {
    LiveRunIs(env, arrivals);
    RebuildReplaysWritten(env, arrivals);
    SessioniserCorrect(env.window, Ingested(env, arrivals), ip);
    SessioniserCorrect(env.window, Written(env, arrivals), ip);
    SubStreamsKnown(env, arrivals, ip);
    hide Rebuild, LiveRun, Replay, Written, Summarise;
  }

  lemma {:induction false} SubStreamsKnown(env: Env, arrivals: seq<Arrival>, ip: string)
    ensures SubStream(Ingested(env, arrivals), ip) != [] <==>
              exists i :: 0 <= i < |arrivals| && arrivals[i].ev.remoteIP == ip
    ensures SubStream(Written(env, arrivals), ip) != [] <==>
              exists i :: 0 <= i < |arrivals| && arrivals[i].ev.remoteIP == ip && !arrivals[i].fault
  {
    if arrivals == [] {
      assert Written(env, arrivals) == [];
    } else {
      SubStreamsKnown(env, arrivals[..|arrivals| - 1], ip);
      OneMore(env, arrivals, ip);
      hide Written, Ingested, SubStream;
      SplitLast(arrivals);
    }
  }

  lemma {:induction false} OneMore(env: Env, arrivals: seq<Arrival>, ip: string)
    requires arrivals != []
    ensures var init, a := arrivals[..|arrivals| - 1], arrivals[|arrivals| - 1];
      && (SubStream(Ingested(env, arrivals), ip) == [] <==>
            SubStream(Ingested(env, init), ip) == [] && a.ev.remoteIP != ip)
      && (SubStream(Written(env, arrivals), ip) == [] <==>
            SubStream(Written(env, init), ip) == [] && (a.ev.remoteIP != ip || a.fault))
  {
    var init, a := arrivals[..|arrivals| - 1], arrivals[|arrivals| - 1];
    WrittenAppend(env, arrivals);
    SunkOnlyAddsMetadata(env, init, a);
    SubStreamAppend(Ingested(env, init), Scored(env, a.ev), ip);
    SubStreamAppend(Written(env, init), Outgoing(env, init, a), ip);
    hide Written, Scored, Outgoing, CaptureOf, SubStream;
  }
}
