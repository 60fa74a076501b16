// The in-memory correlator: one mutable campaign record per source address.
module Correlators {
  import opened Basics
  import opened Events
  import opened Lists
  import opened Sessions
  import Text

  const GROUPING_NOTE := "rule-based: same src IP + sliding time window + decoy hop path (not ML)"

  const DEFAULT_WINDOW := 2 * 60 * 60 * SECOND

  // ---------- one step, on values ----------

  function NewCampaign(ip: string, t: Time): Campaign {
    Campaign(CampaignID(ip, t), ip, t, t, [], [], [], [], 0, 0, [], [], [], [],
             ["same_src_ip", "session_window"], map[])
  }

  function AddHop(path: seq<string>, decoy: string): seq<string> {
    if decoy != "" && (path == [] || path[|path| - 1] != decoy) then path + [decoy] else path
  }

  function NoteHop(grouping: seq<string>, before: nat, after: nat): seq<string> {
    if after > before && after > 1 then AddUnique(grouping, "decoy_hop") else grouping
  }

  function CountStep(c: Campaign, ev: Event): Campaign {
    c.(lastSeen := ev.timestamp,
       totalEvents := c.totalEvents + 1,
       maxThreatScore := if ev.threatScore > c.maxThreatScore then ev.threatScore else c.maxThreatScore)
  }

  function VisitStep(c: Campaign, decoy: string): Campaign {
    var decoys := AddUnique(c.decoysTargeted, decoy);
    c.(decoysTargeted := decoys,
       grouping := NoteHop(c.grouping, |c.decoysTargeted|, |decoys|),
       hopPath := AddHop(c.hopPath, decoy))
  }

  function RollStep(c: Campaign, ev: Event): Campaign {
    c.(eventIDs := AddUnique(c.eventIDs, ev.id),
       actions := AddUnique(c.actions, ev.action),
       mitreTacticIDs := AddUnique(c.mitreTacticIDs, TacticOf(ev)),
       techniqueIDs := AddUnique(c.techniqueIDs, TechniqueOf(ev)),
       usernamesUsed := AddUnique(c.usernamesUsed, ev.username),
       commandsRun := AddUnique(c.commandsRun, ev.command))
  }

  function DescribeStep(w: Window, c: Campaign, extra: map<string, string>): Campaign {
    c.(metadata := c.metadata + extra + Notes(w, |c.hopPath|, |c.decoysTargeted|))
  }

  /** Folding one event into the campaign it joins. */
  function AbsorbStep(w: Window, c: Campaign, ev: Event): Campaign {
    DescribeStep(w, RollStep(VisitStep(CountStep(c, ev), ev.decoyName), ev), ev.metadata)
  }

  lemma {:induction false} NotesAsUpdates(m: map<string, string>, w: Window, hops: nat, decoys: nat)
    ensures m["session_window" := w.text]["hop_count" := Text.Itoa(hops)]
             ["unique_decoys" := Text.Itoa(decoys)]["grouping_note" := w.note]
            == m + Notes(w, hops, decoys)
  {
  }

  /** The window for a requested length: two hours when none is given. */
  function WindowFor(requested: int, show: int -> string): (w: Window)
    ensures w.length > 0
  {
    var length := if requested <= 0 then DEFAULT_WINDOW else requested;
    Window(length, show(length), GROUPING_NOTE)
  }

  type Campaigns = map<string, Campaign>

  predicate Expired(w: Window, c: Campaign, now: Time) {
    c.lastSeen != ZERO_TIME && Sub(now, c.lastSeen) > w.length
  }

  /** The campaign an event is folded into: the address's live one, or a fresh one. */
  function Joined(w: Window, m: Campaigns, ev: Event): Campaign {
    if ev.remoteIP !in m || Expired(w, m[ev.remoteIP], ev.timestamp)
    then NewCampaign(ev.remoteIP, ev.timestamp)
    else m[ev.remoteIP]
  }

  function IngestStep(w: Window, m: Campaigns, ev: Event): Campaigns {
    m[ev.remoteIP := AbsorbStep(w, Joined(w, m, ev), ev)]
  }

  /** Pruning uses the bare gap: unlike Ingest it makes no exception for a zero time. */
  predicate Idle(w: Window, c: Campaign, now: Time) {
    Sub(now, c.lastSeen) > w.length
  }

  function PruneStep(w: Window, m: Campaigns, now: Time): Campaigns {
    map ip | ip in m && !Idle(w, m[ip], now) :: m[ip]
  }

  lemma {:induction false} JoinedCases(w: Window, m: Campaigns, ev: Event)
    ensures Joined(w, m, ev) ==
      if ev.remoteIP !in m then NewCampaign(ev.remoteIP, ev.timestamp)
      else var last := m[ev.remoteIP].lastSeen;
        if last != ZERO_TIME && Sub(ev.timestamp, last) > w.length then NewCampaign(ev.remoteIP, ev.timestamp)
        else m[ev.remoteIP]
  {
    hide NewCampaign, Sub;
  }

  lemma {:induction false} FiledIs(m: Campaigns, ip: string, c: Campaign, m': Campaigns)
    requires m'.Keys == m.Keys + {ip} && m'[ip] == c
    requires forall other :: other in m && other != ip ==> m'[other] == m[other]
    ensures m' == m[ip := c]
  {
  }

  lemma {:induction false} IngestStepIs(w: Window, m: Campaigns, ev: Event, m': Campaigns)
    requires m'.Keys == m.Keys + {ev.remoteIP}
    requires m'[ev.remoteIP] == AbsorbStep(w, Joined(w, m, ev), ev)
    requires forall ip :: ip in m && ip != ev.remoteIP ==> m'[ip] == m[ip]
    ensures m' == IngestStep(w, m, ev)
  {
  }

  lemma {:induction false} PruneStepIs(w: Window, m: Campaigns, now: Time, m': Campaigns)
    requires m'.Keys <= m.Keys
    requires forall ip :: ip in m ==> (ip in m' <==> !Idle(w, m[ip], now))
    requires forall ip :: ip in m' ==> m'[ip] == m[ip]
    ensures m' == PruneStep(w, m, now)
  {
  }

  // ---------- the mutable record and the correlator ----------

  method Contains(slice: seq<string>, val: string) returns (found: bool)
    ensures found <==> val in slice
  {
    for i := 0 to |slice|
      invariant val !in slice[..i]
    {
      if slice[i] == val {
        return true;
      }
    }
    return false;
  }

  method AppendNew(slice: seq<string>, val: string) returns (r: seq<string>)
    ensures r == AddUnique(slice, val)
  {
    var known := Contains(slice, val);
    r := if val != "" && !known then slice + [val] else slice;
  }

  class CampaignRecord {
    const id: string
    const attackerIP: string
    const firstSeen: Time
    var lastSeen: Time
    var decoysTargeted: seq<string>
    var hopPath: seq<string>
    var eventIDs: seq<string>
    var actions: seq<string>
    var totalEvents: nat
    var maxThreatScore: int
    var mitreTacticIDs: seq<string>
    var techniqueIDs: seq<string>
    var usernamesUsed: seq<string>
    var commandsRun: seq<string>
    var grouping: seq<string>
    var metadata: map<string, string>

    constructor (ip: string, t: Time)
      ensures View() == NewCampaign(ip, t) && attackerIP == ip
    {
      id, attackerIP, firstSeen, lastSeen := CampaignID(ip, t), ip, t, t;
      decoysTargeted, hopPath, eventIDs, actions := [], [], [], [];
      totalEvents, maxThreatScore := 0, 0;
      mitreTacticIDs, techniqueIDs, usernamesUsed, commandsRun := [], [], [], [];
      grouping, metadata := ["same_src_ip", "session_window"], map[];
    }

    function View(): Campaign
      reads this
    {
      Campaign(id, attackerIP, firstSeen, lastSeen, decoysTargeted, hopPath, eventIDs, actions,
               totalEvents, maxThreatScore, mitreTacticIDs, techniqueIDs, usernamesUsed, commandsRun,
               grouping, metadata)
    }

    /** The decoy fields: first-occurrence list, hop grouping reason, collapsed visits. */
    method VisitDecoy(decoy: string)
      modifies this`decoysTargeted, this`grouping, this`hopPath
      ensures View() == VisitStep(old(View()), decoy)
    {
      if decoy == "" {
        return;
      }
      var known := Contains(decoysTargeted, decoy);
      if !known {
        decoysTargeted := decoysTargeted + [decoy];
        var noted := Contains(grouping, "decoy_hop");
        if |decoysTargeted| > 1 && !noted {
          grouping := grouping + ["decoy_hop"];
        }
      }
      if |hopPath| == 0 || hopPath[|hopPath| - 1] != decoy {
        hopPath := hopPath + [decoy];
      }
    }

    method CopyMetadata(extra: map<string, string>)
      modifies this`metadata
      ensures metadata == old(metadata) + extra
    {
      var keys := extra.Keys;
      while keys != {}
        invariant keys <= extra.Keys
        invariant metadata == old(metadata) + (extra - keys)
        decreases |keys|
      {
        var k :| k in keys;
        metadata := metadata[k := extra[k]];
        keys := keys - {k};
      }
      assert extra - {} == extra;
    }

    /** Copies the event's metadata over the campaign's, then the four notes over that. */
    method Describe(w: Window, extra: map<string, string>)
      modifies this`metadata
      ensures View() == DescribeStep(w, old(View()), extra)
    {
      CopyMetadata(extra);
      NotesAsUpdates(metadata, w, |hopPath|, |decoysTargeted|);
      metadata := metadata["session_window" := w.text];
      metadata := metadata["hop_count" := Text.Itoa(|hopPath|)];
      metadata := metadata["unique_decoys" := Text.Itoa(|decoysTargeted|)];
      metadata := metadata["grouping_note" := w.note];
    }

    method Count(ev: Event)
      modifies this`lastSeen, this`totalEvents, this`maxThreatScore
      ensures View() == CountStep(old(View()), ev)
    {
      lastSeen := ev.timestamp;
      totalEvents := totalEvents + 1;
      if ev.threatScore > maxThreatScore {
        maxThreatScore := ev.threatScore;
      }
    }

    method RollText(ev: Event)
      modifies this`eventIDs, this`actions, this`usernamesUsed, this`commandsRun
      ensures eventIDs == AddUnique(old(eventIDs), ev.id) && actions == AddUnique(old(actions), ev.action)
      ensures usernamesUsed == AddUnique(old(usernamesUsed), ev.username)
      ensures commandsRun == AddUnique(old(commandsRun), ev.command)
    {
      hide AddUnique;
      eventIDs := AppendNew(eventIDs, ev.id);
      actions := AppendNew(actions, ev.action);
      usernamesUsed := AppendNew(usernamesUsed, ev.username);
      commandsRun := AppendNew(commandsRun, ev.command);
    }

    method RollMitre(mitre: Option<Mitre>)
      modifies this`mitreTacticIDs, this`techniqueIDs
      ensures mitre.Some? ==> mitreTacticIDs == AddUnique(old(mitreTacticIDs), mitre.value.tacticID)
      ensures mitre.Some? ==> techniqueIDs == AddUnique(old(techniqueIDs), mitre.value.techniqueID)
      ensures mitre.None? ==> mitreTacticIDs == old(mitreTacticIDs) && techniqueIDs == old(techniqueIDs)
    {
      if mitre.Some? {
        mitreTacticIDs := AppendNew(mitreTacticIDs, mitre.value.tacticID);
        techniqueIDs := AppendNew(techniqueIDs, mitre.value.techniqueID);
      }
    }

    method Roll(ev: Event)
      modifies this`eventIDs, this`actions, this`mitreTacticIDs, this`techniqueIDs,
               this`usernamesUsed, this`commandsRun
      ensures View() == RollStep(old(View()), ev)
    {
      RollText(ev);
      RollMitre(ev.mitre);
    }

    method Absorb(w: Window, ev: Event)
      modifies this
      ensures View() == AbsorbStep(w, old(View()), ev)
    {
      Count(ev);
      VisitDecoy(ev.decoyName);
      Roll(ev);
      Describe(w, ev.metadata);
    }
  }

  class Correlator {
    var campaigns: map<string, CampaignRecord>
    const window: Window

    /** Each record is filed under its own address, so no two entries share a record. */
    ghost predicate Valid()
      reads this, campaigns.Values
    {
      forall ip :: ip in campaigns ==> campaigns[ip].attackerIP == ip
    }

    ghost function View(): Campaigns
      reads this, campaigns.Values
    {
      map ip | ip in campaigns :: campaigns[ip].View()
    }

    constructor (sessionWindow: int, show: int -> string)
      ensures Valid() && campaigns == map[] && View() == map[]
      ensures window == WindowFor(sessionWindow, show)
    {
      var length := sessionWindow;
      if length <= 0 {
        length := DEFAULT_WINDOW;
      }
      window := Window(length, show(length), GROUPING_NOTE);
      campaigns := map[];
    }

    /** The record that ev joins, unless it is missing or expired. */
    method Live(ev: Event) returns (camp: CampaignRecord?)
      requires Valid()
      ensures camp != null ==>
        ev.remoteIP in campaigns && camp == campaigns[ev.remoteIP] && camp.View() == Joined(window, View(), ev)
      ensures camp == null ==> Joined(window, View(), ev) == NewCampaign(ev.remoteIP, ev.timestamp)
    {
      hide NewCampaign, Sub, Joined;
      JoinedCases(window, View(), ev);
      camp := null;
      if ev.remoteIP in campaigns {
        camp := campaigns[ev.remoteIP];
        if camp.lastSeen != ZERO_TIME && Sub(ev.timestamp, camp.lastSeen) > window.length {
          camp := null;
        }
      }
    }

    /** The record ev belongs to; a missing or expired one is replaced by a fresh record. */
    method Locate(ev: Event) returns (camp: CampaignRecord)
      requires Valid()
      modifies this
      ensures Valid() && fresh(campaigns.Values - old(campaigns.Values))
      ensures ev.remoteIP in campaigns && camp == campaigns[ev.remoteIP]
      ensures View() == old(View())[ev.remoteIP := Joined(window, old(View()), ev)]
    {
      hide NewCampaign, Joined, CampaignRecord.View;
      ghost var before := View();
      var live := Live(ev);
      if live != null {
        camp := live;
      } else {
        camp := new CampaignRecord(ev.remoteIP, ev.timestamp);
        campaigns := campaigns[ev.remoteIP := camp];
      }
      FiledIs(before, ev.remoteIP, Joined(window, before, ev), View());
    }

    method Ingest(ev: Event) returns (camp: CampaignRecord)
      requires Valid()
      modifies this, campaigns.Values
      ensures Valid() && fresh(campaigns.Values - old(campaigns.Values))
      ensures View() == IngestStep(window, old(View()), ev)
      ensures ev.remoteIP in campaigns && camp == campaigns[ev.remoteIP]
    {
      hide AbsorbStep, Joined, IngestStep, CampaignRecord.View;
      ghost var before := View();
      camp := Locate(ev);
      camp.Absorb(window, ev);
      IngestStepIs(window, before, ev, View());
    }

    method CampaignByIP(ip: string) returns (camp: CampaignRecord?)
      requires Valid()
      ensures camp != null <==> ip in View()
      ensures camp != null ==> camp.View() == View()[ip]
    {
      camp := if ip in campaigns then campaigns[ip] else null;
    }

    /** The entries that survive a prune, and how many do not. */
    method Survivors(now: Time) returns (live: map<string, CampaignRecord>, removed: nat)
      ensures live.Keys <= campaigns.Keys && removed == |campaigns.Keys| - |live.Keys|
      ensures forall ip :: ip in live ==> live[ip] == campaigns[ip]
      ensures forall ip :: ip in campaigns ==>
        (ip in live <==> !(Sub(now, campaigns[ip].lastSeen) > window.length))
    {
      live, removed := campaigns, 0;
      var todo := campaigns.Keys;
      while todo != {}
        invariant todo <= live.Keys <= campaigns.Keys
        invariant forall ip :: ip in live ==> live[ip] == campaigns[ip]
        invariant forall ip :: ip in campaigns && ip !in todo ==>
          (ip in live <==> !(Sub(now, campaigns[ip].lastSeen) > window.length))
        invariant removed == |campaigns.Keys| - |live.Keys|
        decreases |todo|
      {
        var ip :| ip in todo;
        if Sub(now, campaigns[ip].lastSeen) > window.length {
          ghost var kept := live.Keys - {ip};
          live := live - {ip};
          assert live.Keys == kept;
          removed := removed + 1;
        }
        todo := todo - {ip};
      }
    }

    method PruneExpired(now: Time) returns (removed: nat)
      requires Valid()
      modifies this
      ensures Valid() && campaigns.Values <= old(campaigns.Values)
      ensures View() == PruneStep(window, old(View()), now)
      ensures removed == |old(campaigns.Keys)| - |campaigns.Keys|
    {
      ghost var before := View();
      campaigns, removed := Survivors(now);
      PruneStepIs(window, before, now, View());
    }
  }
}
