// What a campaign is meant to be: the summary of the last session of one IP's events.
// Nothing here mentions a map, a fold over the whole stream or an update in place.
module Sessions {
  import opened Events
  import opened Lists
  import Text

  /** The session window in nanoseconds, its Duration.String rendering, and the note every campaign carries. */
  datatype Window = Window(length: int, text: string, note: string)

  datatype Campaign = Campaign(
    id: string,
    attackerIP: string,
    firstSeen: Time,
    lastSeen: Time,
    decoysTargeted: seq<string>,
    hopPath: seq<string>,
    eventIDs: seq<string>,
    actions: seq<string>,
    totalEvents: nat,
    maxThreatScore: int,
    mitreTacticIDs: seq<string>,
    techniqueIDs: seq<string>,
    usernamesUsed: seq<string>,
    commandsRun: seq<string>,
    grouping: seq<string>,
    metadata: map<string, string>)

  function Own(e: Event, ip: string): seq<Event> {
    if e.remoteIP == ip then [e] else []
  }

  /** The events of one source address, in arrival order. */
  function SubStream(evs: seq<Event>, ip: string): seq<Event> {
    if evs == [] then [] else Own(evs[0], ip) + SubStream(evs[1..], ip)
  }

  /** A session ends between two events when the gap exceeds the window; a zero time never ends one. */
  predicate Breaks(w: Window, before: Event, after: Event) {
    before.timestamp != ZERO_TIME && Sub(after.timestamp, before.timestamp) > w.length
  }

  /** start is where the last session of s begins. */
  ghost predicate IsLastSession(w: Window, s: seq<Event>, start: nat) {
    && start < |s|
    && (start > 0 ==> Breaks(w, s[start - 1], s[start]))
    && forall i :: start < i < |s| ==> !Breaks(w, s[i - 1], s[i])
  }

  function Project(s: seq<Event>, f: Event -> string): (r: seq<string>)
    ensures |r| == |s|
    ensures forall i :: 0 <= i < |s| ==> r[i] == f(s[i])
  {
    seq(|s|, i requires 0 <= i < |s| => f(s[i]))
  }

  /** The distinct non-empty values of one field, in order of first occurrence. */
  function Roll(s: seq<Event>, f: Event -> string): seq<string> {
    Uniq(NonEmpty(Project(s, f)))
  }

  function DecoyOf(e: Event): string { e.decoyName }
  function IdOf(e: Event): string { e.id }
  function ActionOf(e: Event): string { e.action }
  function UsernameOf(e: Event): string { e.username }
  function CommandOf(e: Event): string { e.command }

  function HopPath(s: seq<Event>): seq<string> {
    Collapse(NonEmpty(Project(s, DecoyOf)))
  }

  function TacticOf(e: Event): string {
    if e.mitre.Some? then e.mitre.value.tacticID else ""
  }

  function TechniqueOf(e: Event): string {
    if e.mitre.Some? then e.mitre.value.techniqueID else ""
  }

  /** The highest score of the session, never below zero. */
  function MaxScore(s: seq<Event>): (m: int)
    ensures m >= 0 && forall i :: 0 <= i < |s| ==> s[i].threatScore <= m
    ensures m == 0 || exists i :: 0 <= i < |s| && s[i].threatScore == m
  {
    if s == [] then 0
    else
      var m := MaxScore(s[1..]);
      assert forall i :: 0 < i < |s| ==> s[i] == s[1..][i - 1];
      if s[0].threatScore > m then s[0].threatScore else m
  }

  function MergedMetadata(s: seq<Event>): map<string, string> {
    if s == [] then map[] else s[0].metadata + MergedMetadata(s[1..])
  }

  function Notes(w: Window, hops: nat, decoys: nat): map<string, string> {
    map[
      "session_window" := w.text,
      "hop_count" := Text.Itoa(hops),
      "unique_decoys" := Text.Itoa(decoys),
      "grouping_note" := w.note]
  }

  /** Why the events were joined; decoy_hop is claimed for two decoys or more. */
  function Grouping(decoys: nat): seq<string> {
    ["same_src_ip", "session_window"] + (if decoys > 1 then ["decoy_hop"] else [])
  }

  function CampaignID(ip: string, first: Time): string {
    "camp-" + ip + "-" + Text.Itoa(Unix(first))
  }

  /** The campaign that one session of one address should be reported as. */
  function Summarise(w: Window, s: seq<Event>): Campaign
    requires s != []
  {
    var decoys := Roll(s, DecoyOf);
    Campaign(
      CampaignID(s[0].remoteIP, s[0].timestamp),
      s[0].remoteIP,
      s[0].timestamp,
      s[|s| - 1].timestamp,
      decoys,
      HopPath(s),
      Roll(s, IdOf),
      Roll(s, ActionOf),
      |s|,
      MaxScore(s),
      Roll(s, TacticOf),
      Roll(s, TechniqueOf),
      Roll(s, UsernameOf),
      Roll(s, CommandOf),
      Grouping(|decoys|),
      MergedMetadata(s) + Notes(w, |HopPath(s)|, |decoys|))
  }
}
