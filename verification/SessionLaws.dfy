// What sessions, prunes and campaigns mean on timestamps and fields, without the code's own arithmetic.
module SessionLaws {
  import opened Basics
  import opened Events
  import opened Lists
  import opened Sessions
  import opened Correlators
  import opened CampaignProofs
  import PruneProofs
  import OnDemandProofs
  import Text

  // ---------- time ----------

  /** Go's zero time: 719162 days before the Unix epoch, 1969 years with their leap days. */
  lemma {:induction false} ZeroTimeIsYearOne()
    ensures ZERO_TIME == -(1969 * 365 + 1969 / 4 - 1969 / 100 + 1969 / 400) * 24 * 3600 * 1_000_000_000
  {
  }

  /** A window that a time.Duration can be longer than. */
  predicate Proper(w: Window) {
    0 <= w.length < 0x7FFF_FFFF_FFFF_FFFF
  }

  /** For every such window, the saturating difference exceeds it exactly when the timestamps do. */
  lemma {:induction false} GapIsReal(t: Time, u: Time, length: int)
    requires 0 <= length
    ensures Sub(t, u) > length <==> t - u > length && length < 0x7FFF_FFFF_FFFF_FFFF
  {
  }

  /** Two neighbouring events of one address with a session break between them. */
  predicate FarApart(w: Window, before: Event, after: Event) {
    before.timestamp != ZERO_TIME && after.timestamp - before.timestamp > w.length
  }

  lemma {:induction false} BreaksExactly(w: Window, before: Event, after: Event)
    requires Proper(w)
    ensures Breaks(w, before, after) <==> FarApart(w, before, after)
  {
    GapIsReal(after.timestamp, before.timestamp, w.length);
    hide Sub;
  }

  // ---------- sessions ----------

  /** The last session of s begins at start: a break before it, if anything is before it, and none inside. */
  ghost predicate BeginsAt(w: Window, s: seq<Event>, start: nat) {
    && start < |s|
    && (start == 0 || FarApart(w, s[start - 1], s[start]))
    && forall i :: start < i < |s| ==> !FarApart(w, s[i - 1], s[i])
  }

  lemma {:induction false} LastSessionExactly(w: Window, s: seq<Event>, start: nat)
    requires Proper(w)
    ensures IsLastSession(w, s, start) <==> BeginsAt(w, s, start)
  {
    hide Breaks, FarApart;
    forall i | 0 < i < |s|
      ensures Breaks(w, s[i - 1], s[i]) <==> FarApart(w, s[i - 1], s[i])
    {
      BreaksExactly(w, s[i - 1], s[i]);
    }
  }

  /**
    Main result. Every stored campaign summarises exactly the events of its address from the last pair of
    neighbours on whose timestamps differ by more than the window, the earlier one not being zero.
   */
  lemma {:induction false} SessionsByTime(w: Window, evs: seq<Event>, ip: string, start: nat)
    requires Proper(w) && BeginsAt(w, SubStream(evs, ip), start)
    ensures ip in Replay(w, evs) && Replay(w, evs)[ip] == Summarise(w, SubStream(evs, ip)[start..])
  {
    LastSessionExactly(w, SubStream(evs, ip), start);
    SessioniserCorrect(w, evs, ip);
    hide Replay, Summarise, SubStream, IsLastSession;
  }

  /** The event comes too late for the address's campaign, or there is none. */
  predicate StartsAnew(w: Window, m: Campaigns, ev: Event) {
    ev.remoteIP !in m
    || (m[ev.remoteIP].lastSeen != ZERO_TIME && ev.timestamp - m[ev.remoteIP].lastSeen > w.length)
  }

  /**
    Ingest starts a new campaign of one event exactly when the address is unknown or its last time is
    non-zero and further back than the window; otherwise it adds the event to the campaign there is.
   */
  lemma {:induction false} StartsAnewExactly(w: Window, m: Campaigns, ev: Event)
    requires Proper(w) && PruneProofs.NonEmptyCampaigns(m)
    ensures ev.remoteIP in IngestStep(w, m, ev)
    ensures var c := IngestStep(w, m, ev)[ev.remoteIP];
      if StartsAnew(w, m, ev)
      then c.totalEvents == 1 && c.firstSeen == c.lastSeen == ev.timestamp
      else c.totalEvents == m[ev.remoteIP].totalEvents + 1 > 1 && c.lastSeen == ev.timestamp
           && c.firstSeen == m[ev.remoteIP].firstSeen && c.id == m[ev.remoteIP].id
  {
    if ev.remoteIP in m {
      GapIsReal(ev.timestamp, m[ev.remoteIP].lastSeen, w.length);
    }
    AbsorbKeeps(w, Joined(w, m, ev), ev);
    hide AbsorbStep, Sub;
  }

  lemma {:induction false} AbsorbKeeps(w: Window, c: Campaign, ev: Event)
    ensures var d := AbsorbStep(w, c, ev);
      d.totalEvents == c.totalEvents + 1 && d.lastSeen == ev.timestamp && d.firstSeen == c.firstSeen && d.id == c.id
  {
  }

  /** PruneExpired removes an entry exactly when it was last seen further back than the window; zero is no exception. */
  lemma {:induction false} PrunedExactly(w: Window, m: Campaigns, now: Time, ip: string)
    requires Proper(w) && ip in m
    ensures ip !in PruneStep(w, m, now) <==> now - m[ip].lastSeen > w.length
    ensures ip in PruneStep(w, m, now) ==> PruneStep(w, m, now)[ip] == m[ip]
  {
    GapIsReal(now, m[ip].lastSeen, w.length);
    hide Sub;
  }

  /** Without a window of its own, a correlator's sessions last two hours. */
  lemma {:induction false} WindowDefaults(requested: int, show: int -> string)
    ensures WindowFor(requested, show).length == if requested > 0 then requested else 2 * 3600 * 1_000_000_000
  {
  }

  // ---------- what a campaign lists ----------

  lemma {:induction false} NonEmptyMembers(xs: seq<string>)
    ensures forall x :: x in NonEmpty(xs) <==> x in xs && x != ""
  {
    if xs != [] {
      NonEmptyMembers(xs[1..]);
      assert forall x :: x in xs <==> x == xs[0] || x in xs[1..];
    }
  }

  lemma {:induction false} RollMembers(s: seq<Event>, f: Event -> string, x: string)
    ensures x in Roll(s, f) <==> x != "" && exists e :: e in s && f(e) == x
  {
    var xs := Project(s, f);
    NonEmptyMembers(xs);
    if e :| e in s && f(e) == x {
      var i :| 0 <= i < |s| && s[i] == e;
      assert xs[i] == x;
    }
    if x in xs {
      var i :| 0 <= i < |xs| && xs[i] == x;
      assert s[i] in s && f(s[i]) == x;
    }
  }

  lemma {:induction false} TacticMembers(s: seq<Event>, x: string)
    requires x != ""
    ensures (exists e :: e in s && TacticOf(e) == x) <==>
            (exists e :: e in s && e.mitre.Some? && e.mitre.value.tacticID == x)
    ensures (exists e :: e in s && TechniqueOf(e) == x) <==>
            (exists e :: e in s && e.mitre.Some? && e.mitre.value.techniqueID == x)
  {
    assert forall e :: TacticOf(e) == x <==> e.mitre.Some? && e.mitre.value.tacticID == x;
    assert forall e :: TechniqueOf(e) == x <==> e.mitre.Some? && e.mitre.value.techniqueID == x;
  }

  // A campaign lists exactly the non-empty values that occur in the session it summarises.

  lemma {:induction false} IdsListed(w: Window, s: seq<Event>, x: string)
    requires s != [] && x != ""
    ensures x in Summarise(w, s).eventIDs <==> exists e :: e in s && e.id == x
  {
    ListsRoll(w, s);
    RollMembers(s, IdOf, x);
    hide Summarise, Roll;
  }

  lemma {:induction false} ActionsListed(w: Window, s: seq<Event>, x: string)
    requires s != [] && x != ""
    ensures x in Summarise(w, s).actions <==> exists e :: e in s && e.action == x
  {
    ListsRoll(w, s);
    RollMembers(s, ActionOf, x);
    hide Summarise, Roll;
  }

  lemma {:induction false} DecoysListed(w: Window, s: seq<Event>, x: string)
    requires s != [] && x != ""
    ensures x in Summarise(w, s).decoysTargeted <==> exists e :: e in s && e.decoyName == x
  {
    ListsRoll(w, s);
    RollMembers(s, DecoyOf, x);
    hide Summarise, Roll;
  }

  lemma {:induction false} UsernamesListed(w: Window, s: seq<Event>, x: string)
    requires s != [] && x != ""
    ensures x in Summarise(w, s).usernamesUsed <==> exists e :: e in s && e.username == x
  {
    ListsRoll(w, s);
    RollMembers(s, UsernameOf, x);
    hide Summarise, Roll;
  }

  lemma {:induction false} CommandsListed(w: Window, s: seq<Event>, x: string)
    requires s != [] && x != ""
    ensures x in Summarise(w, s).commandsRun <==> exists e :: e in s && e.command == x
  {
    ListsRoll(w, s);
    RollMembers(s, CommandOf, x);
    hide Summarise, Roll;
  }

  lemma {:induction false} MitreListed(w: Window, s: seq<Event>, x: string)
    requires s != [] && x != ""
    ensures x in Summarise(w, s).mitreTacticIDs <==>
            exists e :: e in s && e.mitre.Some? && e.mitre.value.tacticID == x
    ensures x in Summarise(w, s).techniqueIDs <==>
            exists e :: e in s && e.mitre.Some? && e.mitre.value.techniqueID == x
  {
    ListsRoll(w, s);
    RollMembers(s, TacticOf, x);
    RollMembers(s, TechniqueOf, x);
    TacticMembers(s, x);
    hide Summarise, Roll, TacticOf, TechniqueOf;
  }

  lemma {:induction false} ListsRoll(w: Window, s: seq<Event>)
    requires s != []
    ensures var c := Summarise(w, s);
      && c.eventIDs == Roll(s, IdOf) && c.actions == Roll(s, ActionOf) && c.decoysTargeted == Roll(s, DecoyOf)
      && c.usernamesUsed == Roll(s, UsernameOf) && c.commandsRun == Roll(s, CommandOf)
      && c.mitreTacticIDs == Roll(s, TacticOf) && c.techniqueIDs == Roll(s, TechniqueOf)
  {
    hide Roll, MergedMetadata, Notes, HopPath, MaxScore, CampaignID, Grouping;
  }

  /** The notes every campaign carries agree with its own lists. */
  lemma {:induction false} CampaignNotes(w: Window, s: seq<Event>)
    requires s != []
    ensures var c := Summarise(w, s);
      && c.metadata.Keys >= {"session_window", "hop_count", "unique_decoys", "grouping_note"}
      && c.metadata["session_window"] == w.text && c.metadata["grouping_note"] == w.note
      && c.metadata["hop_count"] == Text.Itoa(|c.hopPath|)
      && c.metadata["unique_decoys"] == Text.Itoa(|c.decoysTargeted|)
  {
    NoteKeysDiffer();
    hide Roll, MergedMetadata, HopPath, MaxScore, CampaignID, Grouping, Text.Itoa;
  }

  lemma {:induction false} NoteKeysDiffer()
    ensures "session_window" != "hop_count" && "session_window" != "unique_decoys" && "session_window" != "grouping_note"
    ensures "hop_count" != "unique_decoys" && "hop_count" != "grouping_note" && "unique_decoys" != "grouping_note"
  {
    assert |"session_window"| == 14 && |"hop_count"| == 9 && |"unique_decoys"| == 13 && |"grouping_note"| == 13;
    assert "unique_decoys"[0] == 'u' && "grouping_note"[0] == 'g';
  }

  /** A campaign's id names its address and first second; two ids are equal only for the same two, or for a dash that is a sign. */
  lemma {:induction false} IdsApart(ip: string, t: Time, ip': string, t': Time)
    ensures CampaignID(ip, t) == "camp-" + (ip + "-" + Text.Itoa(Unix(t)))
    ensures CampaignID(ip, t) == CampaignID(ip', t') <==>
            OnDemandProofs.Collide(true, ip, Unix(t), true, ip', Unix(t'))
  {
    var a, b := ip + "-" + Text.Itoa(Unix(t)), ip' + "-" + Text.Itoa(Unix(t'));
    IdShape(ip, t);
    IdShape(ip', t');
    hide CampaignID, Text.Itoa, Unix, OnDemandProofs.Collide, OnDemandProofs.Stem;
    if "camp-" + a == "camp-" + b {
      assert ("camp-" + a)[5..] == a && ("camp-" + b)[5..] == b;
      OnDemandProofs.SameStems(ip, Unix(t), ip', Unix(t'));
      OnDemandProofs.SameStemsCollide(ip, Unix(t), ip', Unix(t'));
    }
    if OnDemandProofs.Collide(true, ip, Unix(t), true, ip', Unix(t')) {
      OnDemandProofs.CollidePrintsSame(ip, Unix(t), ip', Unix(t'));
    }
  }

  lemma {:induction false} IdShape(ip: string, t: Time)
    ensures CampaignID(ip, t) == "camp-" + (ip + "-" + Text.Itoa(Unix(t)))
  {
    hide Text.Itoa;
    ConcatAssociative("camp-", ip, "-");
    ConcatAssociative("camp-", ip + "-", Text.Itoa(Unix(t)));
  }
}
