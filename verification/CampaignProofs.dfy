// The correlator reports, for every address, exactly the summary of that address's last session.
module CampaignProofs {
  import opened Basics
  import opened Events
  import opened Lists
  import opened Sessions
  import opened Correlators

  /** The correlator's contents after a whole stream. */
  function Replay(w: Window, evs: seq<Event>): Campaigns {
    if evs == [] then map[] else IngestStep(w, Replay(w, evs[..|evs| - 1]), evs[|evs| - 1])
  }

  // ---------- every field of a summary grows as the code makes it grow ----------

  lemma {:induction false} SubStreamAppend(evs: seq<Event>, ev: Event, ip: string)
    ensures SubStream(evs + [ev], ip) == SubStream(evs, ip) + Own(ev, ip)
  {
    if evs == [] {
      assert evs + [ev] == [ev];
    } else {
      SuffixOfAppend(evs, ev, 1);
      SubStreamAppend(evs[1..], ev, ip);
      ConcatAssociative(Own(evs[0], ip), SubStream(evs[1..], ip), Own(ev, ip));
    }
  }

  lemma {:induction false} RollAppend(s: seq<Event>, e: Event, f: Event -> string)
    ensures Roll(s + [e], f) == AddUnique(Roll(s, f), f(e))
  {
    var xs := Project(s, f);
    assert Project(s + [e], f) == xs + [f(e)];
    NonEmptyAppend(xs, f(e));
    UniqAppend(NonEmpty(xs), f(e));
    assert NonEmpty(xs) + [] == NonEmpty(xs);
  }

  lemma {:induction false} HopPathAppend(s: seq<Event>, e: Event)
    ensures HopPath(s + [e]) == AddHop(HopPath(s), e.decoyName)
  {
    var xs := Project(s, DecoyOf);
    assert Project(s + [e], DecoyOf) == xs + [e.decoyName];
    NonEmptyAppend(xs, e.decoyName);
    CollapseAppend(NonEmpty(xs), e.decoyName);
    assert NonEmpty(xs) + [] == NonEmpty(xs);
  }

  lemma {:induction false} MaxScoreAppend(s: seq<Event>, e: Event)
    ensures MaxScore(s + [e]) == if e.threatScore > MaxScore(s) then e.threatScore else MaxScore(s)
  {
    if s == [] {
      assert s + [e] == [e];
    } else {
      MaxScoreAppend(s[1..], e);
      assert (s + [e])[1..] == s[1..] + [e];
    }
  }

  lemma {:induction false} MergeAssociative(a: map<string, string>, b: map<string, string>, c: map<string, string>)
    ensures a + (b + c) == a + b + c
  {
  }

  lemma {:induction false} MergedAppend(s: seq<Event>, e: Event)
    ensures MergedMetadata(s + [e]) == MergedMetadata(s) + e.metadata
  {
    if s == [] {
      assert s + [e] == [e] && [e][1..] == [];
    } else {
      MergedAppend(s[1..], e);
      MergeAssociative(s[0].metadata, MergedMetadata(s[1..]), e.metadata);
      assert (s + [e])[1..] == s[1..] + [e];
    }
  }

  /** Notes always carry the same four keys, so the newest ones win. */
  lemma {:induction false} NotesOverride(w: Window, m: map<string, string>, x: map<string, string>, a: nat, b: nat, c: nat, d: nat)
    ensures m + Notes(w, a, b) + x + Notes(w, c, d) == m + x + Notes(w, c, d)
  {
    assert Notes(w, a, b).Keys == Notes(w, c, d).Keys;
  }

  lemma {:induction false} RollsAppend(w: Window, s: seq<Event>, e: Event)
    requires s != []
    ensures var t := Summarise(w, s + [e]);
      RollStep(Summarise(w, s), e) == Summarise(w, s).(
        eventIDs := t.eventIDs, actions := t.actions, mitreTacticIDs := t.mitreTacticIDs,
        techniqueIDs := t.techniqueIDs, usernamesUsed := t.usernamesUsed, commandsRun := t.commandsRun)
  {
    RollAppend(s, e, IdOf);
    RollAppend(s, e, ActionOf);
    RollAppend(s, e, TacticOf);
    RollAppend(s, e, TechniqueOf);
    RollAppend(s, e, UsernameOf);
    RollAppend(s, e, CommandOf);
  }

  lemma {:induction false} GroupingStep(before: nat, after: nat)
    requires before <= after <= before + 1
    ensures NoteHop(Grouping(before), before, after) == Grouping(after)
  {
    assert |"same_src_ip"| == 11 && |"session_window"| == 14 && |"decoy_hop"| == 9;
  }

  lemma {:induction false} VisitsAppend(w: Window, s: seq<Event>, e: Event)
    requires s != []
    ensures var t := Summarise(w, s + [e]);
      VisitStep(Summarise(w, s), e.decoyName) == Summarise(w, s).(
        decoysTargeted := t.decoysTargeted, grouping := t.grouping, hopPath := t.hopPath)
  {
    RollAppend(s, e, DecoyOf);
    HopPathAppend(s, e);
    GroupingStep(|Roll(s, DecoyOf)|, |Roll(s + [e], DecoyOf)|);
  }

  /** Absorbing one more event is summarising one more event. */
  lemma {:induction false} SummariseAppend(w: Window, s: seq<Event>, e: Event)
    requires s != []
    ensures AbsorbStep(w, Summarise(w, s), e) == Summarise(w, s + [e])
  {
    RollsAppend(w, s, e);
    VisitsAppend(w, s, e);
    MaxScoreAppend(s, e);
    MergedAppend(s, e);
    NotesOverride(w, MergedMetadata(s), e.metadata, |HopPath(s)|, |Roll(s, DecoyOf)|,
                  |HopPath(s + [e])|, |Roll(s + [e], DecoyOf)|);
  }

  lemma {:induction false} SummariseFirst(w: Window, e: Event)
    ensures AbsorbStep(w, NewCampaign(e.remoteIP, e.timestamp), e) == Summarise(w, [e])
  {
    FirstRolls(e);
    FirstOthers(e);
    FirstVisit(e);
    hide CampaignID, AddUnique, AddHop, NoteHop, Roll, HopPath, MaxScore, Grouping, MergedMetadata, Notes;
  }

  lemma {:induction false} FirstOthers(e: Event)
    ensures HopPath([e]) == AddHop([], e.decoyName)
    ensures MaxScore([e]) == if e.threatScore > 0 then e.threatScore else 0
    ensures MergedMetadata([e]) == map[] + e.metadata
  {
    var s: seq<Event> := [];
    assert s + [e] == [e];
    HopPathAppend(s, e);
    MaxScoreAppend(s, e);
    MergedAppend(s, e);
  }

  lemma {:induction false} FirstVisit(e: Event)
    ensures var decoys := AddUnique([], e.decoyName);
      NoteHop(["same_src_ip", "session_window"], 0, |decoys|) == Grouping(|decoys|)
  {
    GroupingStep(0, |AddUnique([], e.decoyName)|);
    assert Grouping(0) == ["same_src_ip", "session_window"];
  }

  lemma {:induction false} FirstRolls(e: Event)
    ensures Roll([e], DecoyOf) == AddUnique([], e.decoyName)
    ensures Roll([e], IdOf) == AddUnique([], e.id)
    ensures Roll([e], ActionOf) == AddUnique([], e.action)
    ensures Roll([e], TacticOf) == AddUnique([], TacticOf(e))
    ensures Roll([e], TechniqueOf) == AddUnique([], TechniqueOf(e))
    ensures Roll([e], UsernameOf) == AddUnique([], e.username)
    ensures Roll([e], CommandOf) == AddUnique([], e.command)
  {
    FirstRoll(e, DecoyOf);
    FirstRoll(e, IdOf);
    FirstRoll(e, ActionOf);
    FirstRoll(e, TacticOf);
    FirstRoll(e, TechniqueOf);
    FirstRoll(e, UsernameOf);
    FirstRoll(e, CommandOf);
  }

  lemma {:induction false} FirstRoll(e: Event, f: Event -> string)
    ensures Roll([e], f) == AddUnique([], f(e))
  {
    RollAppend([], e, f);
    assert [] + [e] == [e];
  }

  // ---------- sessions of a growing stream ----------

  lemma {:induction false} LastSessionGrows(w: Window, s: seq<Event>, e: Event, start: nat)
    requires s == [] || IsLastSession(w, s, start)
    ensures IsLastSession(w, s + [e], if s == [] || Breaks(w, s[|s| - 1], e) then |s| else start)
  {
  }

  lemma {:induction false} LastSessionUnique(w: Window, s: seq<Event>, a: nat, b: nat)
    requires IsLastSession(w, s, a) && IsLastSession(w, s, b)
    ensures a == b
  {
  }

  /** m's entry for ip is the summary of s, the events of ip, from start on. */
  ghost predicate EntryIs(w: Window, m: Campaigns, ip: string, s: seq<Event>, start: nat) {
    && (ip in m <==> s != [])
    && (s != [] ==> IsLastSession(w, s, start) && m[ip] == Summarise(w, s[start..]))
  }

  lemma {:induction false} ExpiredIffBreaks(w: Window, s: seq<Event>, start: nat, e: Event)
    requires start < |s|
    ensures Expired(w, Summarise(w, s[start..]), e.timestamp) <==> Breaks(w, s[|s| - 1], e)
  {
    hide *;
    SummaryTells(w, s[start..]);
    assert s[start..][|s| - start - 1] == s[|s| - 1];
    ExpiredIs(w, Summarise(w, s[start..]), s[|s| - 1], e);
  }

  lemma {:induction false} ExpiredIs(w: Window, c: Campaign, last: Event, e: Event)
    requires c.lastSeen == last.timestamp
    ensures Expired(w, c, e.timestamp) <==> Breaks(w, last, e)
  {
    hide Sub;
  }

  /** Two things a campaign tells about its session. */
  lemma {:induction false} SummaryTells(w: Window, s: seq<Event>)
    requires s != []
    ensures Summarise(w, s).totalEvents == |s| && Summarise(w, s).lastSeen == s[|s| - 1].timestamp
  {
    hide Project, MaxScore, Uniq, NonEmpty, Collapse, Grouping, CampaignID, MergedMetadata, Notes;
  }

  lemma {:induction false} JoinsNew(w: Window, m: Campaigns, ip: string, s: seq<Event>, start: nat, e: Event)
    requires EntryIs(w, m, ip, s, start) && e.remoteIP == ip
    requires s == [] || Breaks(w, s[|s| - 1], e)
    ensures Joined(w, m, e) == NewCampaign(ip, e.timestamp)
  {
    if s != [] {
      ExpiredIffBreaks(w, s, start, e);
    }
  }

  lemma {:induction false} JoinsLive(w: Window, m: Campaigns, ip: string, s: seq<Event>, start: nat, e: Event)
    requires EntryIs(w, m, ip, s, start) && e.remoteIP == ip
    requires s != [] && !Breaks(w, s[|s| - 1], e)
    ensures Joined(w, m, e) == Summarise(w, s[start..])
  {
    ExpiredIffBreaks(w, s, start, e);
  }

  lemma {:induction false} SuffixGrows(w: Window, s: seq<Event>, start: nat, e: Event)
    requires start < |s|
    ensures AbsorbStep(w, Summarise(w, s[start..]), e) == Summarise(w, (s + [e])[start..])
  {
    SummariseAppend(w, s[start..], e);
    SuffixOfAppend(s, e, start);
  }

  lemma {:induction false} SuffixStarts(w: Window, s: seq<Event>, e: Event)
    ensures AbsorbStep(w, NewCampaign(e.remoteIP, e.timestamp), e) == Summarise(w, (s + [e])[|s|..])
  {
    SummariseFirst(w, e);
    SuffixOfAppend(s, e, |s|);
  }

  lemma {:induction false} JoinNew(w: Window, m: Campaigns, ip: string, s: seq<Event>, start: nat, e: Event)
    requires EntryIs(w, m, ip, s, start) && e.remoteIP == ip
    requires s == [] || Breaks(w, s[|s| - 1], e)
    ensures EntryIs(w, IngestStep(w, m, e), ip, s + [e], |s|)
  {
    LastSessionGrows(w, s, e, start);
    JoinsNew(w, m, ip, s, start, e);
    SuffixStarts(w, s, e);
  }

  lemma {:induction false} JoinLive(w: Window, m: Campaigns, ip: string, s: seq<Event>, start: nat, e: Event)
    requires EntryIs(w, m, ip, s, start) && e.remoteIP == ip
    requires s != [] && !Breaks(w, s[|s| - 1], e)
    ensures EntryIs(w, IngestStep(w, m, e), ip, s + [e], start)
  {
    LastSessionGrows(w, s, e, start);
    JoinsLive(w, m, ip, s, start, e);
    SuffixGrows(w, s, start, e);
  }

  lemma {:induction false} EntryStep(w: Window, m: Campaigns, ip: string, s: seq<Event>, start: nat, e: Event) returns (start': nat)
    requires EntryIs(w, m, ip, s, start)
    ensures EntryIs(w, IngestStep(w, m, e), ip, s + Own(e, ip), start')
  {
    if e.remoteIP != ip {
      start' := start;
      assert s + Own(e, ip) == s;
    } else if s == [] || Breaks(w, s[|s| - 1], e) {
      start' := |s|;
      JoinNew(w, m, ip, s, start, e);
    } else {
      start' := start;
      JoinLive(w, m, ip, s, start, e);
    }
  }

  /** Where the last session of ip's events begins, and that the entry summarises it. */
  lemma {:induction false} EntryIsLastSession(w: Window, evs: seq<Event>, ip: string) returns (start: nat)
    ensures EntryIs(w, Replay(w, evs), ip, SubStream(evs, ip), start)
  {
    if evs == [] {
      start := 0;
    } else {
      var earlier, e := evs[..|evs| - 1], evs[|evs| - 1];
      start := EntryIsLastSession(w, earlier, ip);
      SplitLast(evs);
      SubStreamAppend(earlier, e, ip);
      start := EntryStep(w, Replay(w, earlier), ip, SubStream(earlier, ip), start, e);
    }
  }

  /**
    Main result. For every stream and every address the correlator has an entry exactly when the
    address was seen, and the entry equals, field by field, the summary of the last session of that
    address's own events.
   */
  lemma {:induction false} SessioniserCorrect(w: Window, evs: seq<Event>, ip: string)
    ensures ip in Replay(w, evs) <==> SubStream(evs, ip) != []
    ensures SubStream(evs, ip) != [] ==> exists start: nat :: IsLastSession(w, SubStream(evs, ip), start)
    ensures forall start: nat :: IsLastSession(w, SubStream(evs, ip), start) ==>
      Replay(w, evs)[ip] == Summarise(w, SubStream(evs, ip)[start..])
  {
    var start := EntryIsLastSession(w, evs, ip);
    forall other: nat | IsLastSession(w, SubStream(evs, ip), other)
      ensures Replay(w, evs)[ip] == Summarise(w, SubStream(evs, ip)[other..])
    {
      LastSessionUnique(w, SubStream(evs, ip), start, other);
    }
  }

  /** Events of other addresses never matter, however they are interleaved. */
  lemma {:induction false} InterleavingIrrelevant(w: Window, xs: seq<Event>, ys: seq<Event>, ip: string)
    requires SubStream(xs, ip) == SubStream(ys, ip)
    ensures ip in Replay(w, xs) <==> ip in Replay(w, ys)
    ensures ip in Replay(w, xs) ==> Replay(w, xs)[ip] == Replay(w, ys)[ip]
  {
    var a := EntryIsLastSession(w, xs, ip);
    var b := EntryIsLastSession(w, ys, ip);
    if SubStream(xs, ip) != [] {
      LastSessionUnique(w, SubStream(xs, ip), a, b);
    }
  }

  // ---------- the shape of every reachable campaign ----------

  ghost predicate WellShaped(c: Campaign) {
    && NoEqualNeighbours(c.hopPath)
    && c.decoysTargeted == Uniq(c.hopPath)
    && Distinct(c.decoysTargeted) && FirstOccurrenceOrder(c.decoysTargeted, c.hopPath)
    && ("decoy_hop" in c.grouping <==> |c.decoysTargeted| >= 2)
    && |c.decoysTargeted| <= |c.hopPath| <= c.totalEvents
    && c.totalEvents >= 1
  }

  lemma {:induction false} GroupingMeans(n: nat)
    ensures "decoy_hop" in Grouping(n) <==> n >= 2
  {
    assert |"same_src_ip"| == 11 && |"session_window"| == 14 && |"decoy_hop"| == 9;
    if n >= 2 {
      assert Grouping(n)[2] == "decoy_hop";
    }
  }

  lemma {:induction false} SummaryShape(w: Window, s: seq<Event>)
    requires s != []
    ensures WellShaped(Summarise(w, s))
  {
    var names := NonEmpty(Project(s, DecoyOf));
    NonEmptyNoLonger(Project(s, DecoyOf));
    CollapseHasNoEqualNeighbours(names);
    UniqOfCollapse(names);
    UniqDistinct(Collapse(names));
    UniqInOrder(Collapse(names));
    GroupingMeans(|Roll(s, DecoyOf)|);
  }

  lemma {:induction false} CampaignShape(w: Window, evs: seq<Event>, ip: string)
    requires ip in Replay(w, evs)
    ensures WellShaped(Replay(w, evs)[ip])
    ensures Replay(w, evs)[ip].attackerIP == ip
  {
    var start := EntryIsLastSession(w, evs, ip);
    SummaryShape(w, SubStream(evs, ip)[start..]);
    SubStreamIsOfIP(evs, ip);
  }

  lemma {:induction false} SubStreamIsOfIP(evs: seq<Event>, ip: string)
    ensures forall i :: 0 <= i < |SubStream(evs, ip)| ==> SubStream(evs, ip)[i].remoteIP == ip
  {
    if evs != [] {
      SubStreamIsOfIP(evs[1..], ip);
    }
  }
}
