// The event path of `shinkiro up` - Score, Correlate, Playbook, Sink on the bus - and the offline
// rebuild of `shinkiro campaigns` from the log it leaves behind.
module EventFlow {
  import opened Basics
  import opened Events
  import opened Sessions
  import opened Correlators
  import opened CampaignProofs
  import opened RateProofs
  import P = Pipeline
  import Playbooks
  import Blocking
  import BlockRunProofs
  import L = IntelLog
  import O = OnDemand
  import OnDemandProofs

  /** What is fixed while the process runs; the MITRE mapping and the GeoIP fields are total functions. */
  datatype Env = Env(
    window: Window,
    mapToMitre: (string, string, string) -> Mitre,
    geo: string -> map<string, string>,
    rules: seq<Playbooks.Rule>,
    hook: Option<Blocking.Setup>,
    codec: L.Codec,
    pcap: O.Config,
    pcapPath: string -> string,           // joins the capture directory to a file name
    captured: map<string, seq<byte>>)     // what the capture directory holds at the start

  /** One event off the channel, with what the outside world does while it is processed. */
  datatype Arrival = Arrival(
    ev: Event,
    now: Time,                 // the clock when the playbook stage runs
    opensAt: Time,             // the clock for an event without a time, when a capture file is named
    writesAt: Time,            // and when its packet is written
    captureFault: O.Fault,     // what goes wrong with the capture
    fault: bool)               // persisting the event fails

  datatype World = World(
    campaigns: Campaigns,
    history: Playbooks.History,
    effects: Playbooks.Effects,
    log: string,
    index: L.Blocklist,
    pcap: O.State)

  function Start(env: Env): World {
    World(map[], map[], BlockRunProofs.NOTHING, "", map[], O.State({}, map[], env.captured))
  }

  /** What a handler sees: the event being changed, the rest of the arrival, the world. */
  datatype Flow = Flow(ev: Event, arrival: Arrival, world: World)

  // ---------- the stage handlers ----------

  function Mapped(env: Env, ev: Event): Event {
    if ev.mitre.Some? then ev else ev.(mitre := Some(env.mapToMitre(ev.decoyName, ev.action, ev.command)))
  }

  function Scored(env: Env, ev: Event): Event {
    var m := Mapped(env, ev);
    m.(metadata := m.metadata + env.geo(ev.remoteIP))
  }

  /** MaybeCapture as the sink calls it. */
  function CaptureRequest(ev: Event, a: Arrival): O.Request {
    O.Request(ev, false, a.opensAt, a.writesAt, a.captureFault)
  }

  /** The path of the capture, if one was made. An error is printed and otherwise ignored. */
  function PathOf(env: Env, out: O.Outcome): Option<string> {
    if out.Captured? then Some(env.pcapPath(out.path)) else None
  }

  function Sunk(ev: Event, capture: Option<string>): Event {
    if capture.Some? then ev.(metadata := ev.metadata["pcap_path" := capture.value]) else ev
  }

  function ScoreStage(env: Env, s: Flow): (Flow, Option<string>) {
    (s.(ev := Scored(env, s.ev)), None)
  }

  function CorrelateStage(env: Env, s: Flow): (Flow, Option<string>) {
    (s.(world := s.world.(campaigns := IngestStep(env.window, s.world.campaigns, s.ev))), None)
  }

  function PlaybookStage(env: Env, s: Flow): (Flow, Option<string>) {
    var w, n, now := s.world, |env.rules|, s.arrival.now;
    (s.(world := w.(
         history := Playbooks.HistoryAfter(w.history, env.rules, n, s.ev, now),
         effects := Playbooks.DoAll(env.hook, w.effects, Playbooks.EventCalls(w.history, env.rules, n, s.ev, now)))),
     None)
  }

  function SinkStage(env: Env, s: Flow): (Flow, Option<string>) {
    var (pcap, out) := O.CaptureStep(env.pcap, s.world.pcap, CaptureRequest(s.ev, s.arrival));
    var ev, w := Sunk(s.ev, PathOf(env, out)), s.world;
    var indexed := w.(index := L.AddScore(w.index, ev), pcap := pcap);
    if s.arrival.fault then (s.(ev := ev, world := indexed), Some("persist failed"))
    else (s.(ev := ev, world := indexed.(log := w.log + env.codec.encode(ev) + "\n")), None)
  }

  /** The bus as runUp sets it up: one handler per stage. */
  function Wiring(env: Env): P.Registry<Flow> {
    map[
      P.SCORE := [s => ScoreStage(env, s)],
      P.CORRELATE := [s => CorrelateStage(env, s)],
      P.PLAYBOOK := [s => PlaybookStage(env, s)],
      P.SINK := [s => SinkStage(env, s)]]
  }

  /** All four stages in turn; a failing sink is the last stage anyway. */
  function FlowStep(env: Env, s: Flow): Flow {
    SinkStage(env, PlaybookStage(env, CorrelateStage(env, ScoreStage(env, s).0).0).0).0
  }

  lemma {:induction false} StageNamesDiffer()
    ensures P.SCORE != P.CORRELATE && P.SCORE != P.PLAYBOOK && P.SCORE != P.SINK
    ensures P.CORRELATE != P.PLAYBOOK && P.CORRELATE != P.SINK && P.PLAYBOOK != P.SINK
  {
    assert P.SCORE[1] == 'c' && P.SINK[1] == 'i';
    assert |P.SCORE| == 5 && |P.CORRELATE| == 9 && |P.PLAYBOOK| == 8 && |P.SINK| == 4;
  }

  lemma {:induction false} WiringInOrder(env: Env)
    ensures |P.STAGE_ORDER| == 4
    ensures |P.InOrder(Wiring(env), P.STAGE_ORDER, 4)| == 4
    ensures forall s :: P.InOrder(Wiring(env), P.STAGE_ORDER, 4)[0](s) == ScoreStage(env, s)
    ensures forall s :: P.InOrder(Wiring(env), P.STAGE_ORDER, 4)[1](s) == CorrelateStage(env, s)
    ensures forall s :: P.InOrder(Wiring(env), P.STAGE_ORDER, 4)[2](s) == PlaybookStage(env, s)
    ensures forall s :: P.InOrder(Wiring(env), P.STAGE_ORDER, 4)[3](s) == SinkStage(env, s)
  {
    StageNamesDiffer();
    var r, o := Wiring(env), P.STAGE_ORDER;
    hide ScoreStage, CorrelateStage, PlaybookStage, SinkStage;
    assert P.InOrder(r, o, 1) == P.HandlersOf(r, P.SCORE);
    assert P.InOrder(r, o, 2) == P.InOrder(r, o, 1) + P.HandlersOf(r, P.CORRELATE);
    assert P.InOrder(r, o, 3) == P.InOrder(r, o, 2) + P.HandlersOf(r, P.PLAYBOOK);
    assert P.InOrder(r, o, 4) == P.InOrder(r, o, 3) + P.HandlersOf(r, P.SINK);
  }

  /** The bus, so wired, performs exactly the four stages, and reports an error exactly on a fault. */
  lemma {:induction false} BusRunsFlow(env: Env, s: Flow, res: P.Result<Flow>, ran: nat)
    requires P.Correct(Wiring(env), P.STAGE_ORDER, s, res, ran)
    ensures res.event == FlowStep(env, s) && ran == 4
    ensures res.errors == [] <==> !s.arrival.fault
  {
    WiringInOrder(env);
    var hs := P.InOrder(Wiring(env), P.STAGE_ORDER, 4);
    CorrectMeans(Wiring(env), s, res, ran);
    StagesSucceed(env, s);
    hide *;
    FourHandlers(hs, s);
    FlowStepIs(env, s);
  }

  lemma {:induction false} CorrectMeans(r: P.Registry<Flow>, s: Flow, res: P.Result<Flow>, ran: nat)
    requires |P.STAGE_ORDER| == 4 && P.Correct(r, P.STAGE_ORDER, s, res, ran)
    ensures var hs := P.InOrder(r, P.STAGE_ORDER, 4);
      && ran <= |hs| && res.event == P.After(hs, s, ran)
      && (if P.Succeed(hs, s, ran) then ran == |hs| && res.errors == []
          else 0 < ran && P.Succeed(hs, s, ran - 1) && P.Failure(hs, s, ran - 1).Some? && res.errors != [])
  {
    hide P.InOrder, P.After, P.Failure, P.STAGE_ORDER;
    var hs := P.InOrder(r, P.STAGE_ORDER, 4);
    assert P.StopsAt(hs, s, ran);
  }

  /** A list of four handlers, of which only the last may fail. */
  lemma {:induction false} FourHandlers(hs: seq<P.Handler<Flow>>, s: Flow)
    requires |hs| == 4
    ensures var s1 := hs[0](s).0; var s2 := hs[1](s1).0; var s3 := hs[2](s2).0; var s4 := hs[3](s3);
      && P.After(hs, s, 4) == s4.0
      && P.Failure(hs, s, 0) == hs[0](s).1 && P.Failure(hs, s, 1) == hs[1](s1).1
      && P.Failure(hs, s, 2) == hs[2](s2).1 && P.Failure(hs, s, 3) == s4.1
      && (P.Succeed(hs, s, 3) <==> P.Failure(hs, s, 0) == P.Failure(hs, s, 1) == P.Failure(hs, s, 2) == None)
      && (P.Succeed(hs, s, 4) <==> P.Succeed(hs, s, 3) && P.Failure(hs, s, 3) == None)
      && (P.Succeed(hs, s, 3) ==> P.Succeed(hs, s, 2) && P.Succeed(hs, s, 1) && P.Succeed(hs, s, 0))
  {
    P.NoneRan(hs, s);
    P.OneRan(hs, s, 0);
    P.OneRan(hs, s, 1);
    P.OneRan(hs, s, 2);
    P.OneRan(hs, s, 3);
    hide P.After, P.Failure, P.Succeed;
  }

  lemma {:induction false} StagesSucceed(env: Env, s: Flow)
    ensures ScoreStage(env, s).1 == None && CorrelateStage(env, s).1 == None && PlaybookStage(env, s).1 == None
    ensures SinkStage(env, s).1.Some? <==> s.arrival.fault
    ensures ScoreStage(env, s).0.arrival == s.arrival && CorrelateStage(env, s).0.arrival == s.arrival
    ensures PlaybookStage(env, s).0.arrival == s.arrival
  {
    hide Scored, Sunk, IngestStep, Playbooks.HistoryAfter, Playbooks.DoAll, Playbooks.EventCalls, L.AddScore,
         O.CaptureStep, CaptureRequest, PathOf;
  }

  lemma {:induction false} FlowStepIs(env: Env, s: Flow)
    ensures FlowStep(env, s) ==
      SinkStage(env, PlaybookStage(env, CorrelateStage(env, ScoreStage(env, s).0).0).0).0
  {
    hide ScoreStage, CorrelateStage, PlaybookStage, SinkStage;
  }

  // ---------- a live run ----------

  function LiveRun(env: Env, arrivals: seq<Arrival>): World {
    if arrivals == [] then Start(env)
    else
      var a := arrivals[|arrivals| - 1];
      FlowStep(env, Flow(a.ev, a, LiveRun(env, arrivals[..|arrivals| - 1]))).world
  }

  /** The events the correlator saw. */
  function Ingested(env: Env, arrivals: seq<Arrival>): seq<Event> {
    if arrivals == [] then []
    else Ingested(env, arrivals[..|arrivals| - 1]) + [Scored(env, arrivals[|arrivals| - 1].ev)]
  }

  /** The requests the sink made of the capture hook, which is not closed while events are processed. */
  function CaptureActs(env: Env, arrivals: seq<Arrival>): seq<OnDemandProofs.Act> {
    if arrivals == [] then []
    else
      var a := arrivals[|arrivals| - 1];
      CaptureActs(env, arrivals[..|arrivals| - 1]) + [OnDemandProofs.Capture(CaptureRequest(Scored(env, a.ev), a))]
  }

  /** The capture path of the arrival that follows earlier ones. */
  function CaptureOf(env: Env, earlier: seq<Arrival>, a: Arrival): Option<string> {
    PathOf(env, O.CaptureStep(env.pcap, OnDemandProofs.Run(env.pcap, env.captured, CaptureActs(env, earlier)),
                              CaptureRequest(Scored(env, a.ev), a)).1)
  }

  /** The event as the sink passes it on. */
  function Outgoing(env: Env, earlier: seq<Arrival>, a: Arrival): Event {
    Sunk(Scored(env, a.ev), CaptureOf(env, earlier, a))
  }

  /** The Persist calls the sink made. */
  function PersistCalls(env: Env, arrivals: seq<Arrival>): seq<L.Call> {
    if arrivals == [] then []
    else
      var a := arrivals[|arrivals| - 1];
      PersistCalls(env, arrivals[..|arrivals| - 1])
      + [L.Call(Outgoing(env, arrivals[..|arrivals| - 1], a), a.fault)]
  }

  function SoarLog(env: Env, arrivals: seq<Arrival>): seq<Entry> {
    if arrivals == [] then []
    else
      var a := arrivals[|arrivals| - 1];
      SoarLog(env, arrivals[..|arrivals| - 1]) + [Entry(Scored(env, a.ev), a.now)]
  }

  lemma {:induction false} FlowStepWorld(env: Env, a: Arrival, w: World)
    ensures var w' := FlowStep(env, Flow(a.ev, a, w)).world; var ev := Scored(env, a.ev);
      var capture := O.CaptureStep(env.pcap, w.pcap, CaptureRequest(ev, a));
      var out := Sunk(ev, PathOf(env, capture.1));
      && w'.pcap == capture.0
      && w'.campaigns == IngestStep(env.window, w.campaigns, ev)
      && w'.history == Playbooks.HistoryAfter(w.history, env.rules, |env.rules|, ev, a.now)
      && w'.effects == Playbooks.DoAll(env.hook, w.effects,
                                       Playbooks.EventCalls(w.history, env.rules, |env.rules|, ev, a.now))
      && w'.index == L.AddScore(w.index, out)
      && w'.log == if a.fault then w.log else w.log + env.codec.encode(out) + "\n"
  {
    hide Scored, Sunk, IngestStep, Playbooks.HistoryAfter, Playbooks.DoAll, Playbooks.EventCalls, L.AddScore,
         O.CaptureStep, CaptureRequest, PathOf;
  }

  /** Each component's state after a live run is that component's own run over what the bus fed it. */
  lemma {:induction false} LiveRunIs(env: Env, arrivals: seq<Arrival>)
    ensures var w := LiveRun(env, arrivals); var calls := PersistCalls(env, arrivals);
      && w.campaigns == Replay(env.window, Ingested(env, arrivals))
      && w.history == HistoryOf(env.rules, SoarLog(env, arrivals))
      && w.effects == BlockRunProofs.RunOf(env.hook, env.rules, SoarLog(env, arrivals))
      && w.index == L.IndexAfter(calls) && w.log == L.LogAfter(env.codec, calls)
      && w.pcap == OnDemandProofs.Run(env.pcap, env.captured, CaptureActs(env, arrivals))
  {
    if arrivals != [] {
      var init, a := arrivals[..|arrivals| - 1], arrivals[|arrivals| - 1];
      hide *;
      LiveRunIs(env, init);
      SplitLast(arrivals);
      LiveRunStep(env, init, a);
      FlowStepWorld(env, a, LiveRun(env, init));
      OutgoingIs(env, init, a);
      var ev := Scored(env, a.ev);
      ReplayOne(env.window, Ingested(env, init), ev);
      HistoryAppend(env.rules, SoarLog(env, init), Entry(ev, a.now));
      RunOfOne(env, SoarLog(env, init), Entry(ev, a.now));
      PersistOne(env.codec, PersistCalls(env, init), L.Call(Outgoing(env, init, a), a.fault));
      OnDemandProofs.RunOne(env.pcap, env.captured, CaptureActs(env, init), CaptureRequest(ev, a));
    }
  }

  lemma {:induction false} OutgoingIs(env: Env, earlier: seq<Arrival>, a: Arrival)
    ensures var hook := OnDemandProofs.Run(env.pcap, env.captured, CaptureActs(env, earlier));
      Outgoing(env, earlier, a) ==
      Sunk(Scored(env, a.ev), PathOf(env, O.CaptureStep(env.pcap, hook, CaptureRequest(Scored(env, a.ev), a)).1))
  {
    hide Sunk, Scored, PathOf, O.CaptureStep, CaptureRequest, CaptureActs;
  }

  lemma {:induction false} ReplayOne(w: Window, evs: seq<Event>, e: Event)
    ensures Replay(w, evs + [e]) == IngestStep(w, Replay(w, evs), e)
  {
    DropLast(evs, e);
    hide IngestStep;
  }

  lemma {:induction false} RunOfOne(env: Env, log: seq<Entry>, e: Entry)
    ensures BlockRunProofs.RunOf(env.hook, env.rules, log + [e]) ==
            Playbooks.DoAll(env.hook, BlockRunProofs.RunOf(env.hook, env.rules, log),
                            Playbooks.EventCalls(HistoryOf(env.rules, log), env.rules, |env.rules|, e.ev, e.now))
  {
    DropLast(log, e);
    hide Playbooks.DoAll, Playbooks.EventCalls, HistoryOf;
  }

  lemma {:induction false} PersistOne(c: L.Codec, calls: seq<L.Call>, call: L.Call)
    ensures L.IndexAfter(calls + [call]) == L.AddScore(L.IndexAfter(calls), call.ev)
    ensures L.LogAfter(c, calls + [call]) ==
            if call.fault then L.LogAfter(c, calls) else L.LogAfter(c, calls) + c.encode(call.ev) + "\n"
  {
    DropLast(calls, call);
    hide L.AddScore;
  }

  lemma {:induction false} LiveRunStep(env: Env, init: seq<Arrival>, a: Arrival)
    ensures LiveRun(env, init + [a]) == FlowStep(env, Flow(a.ev, a, LiveRun(env, init))).world
    ensures Ingested(env, init + [a]) == Ingested(env, init) + [Scored(env, a.ev)]
    ensures SoarLog(env, init + [a]) == SoarLog(env, init) + [Entry(Scored(env, a.ev), a.now)]
    ensures PersistCalls(env, init + [a]) == PersistCalls(env, init) + [L.Call(Outgoing(env, init, a), a.fault)]
    ensures CaptureActs(env, init + [a]) ==
            CaptureActs(env, init) + [OnDemandProofs.Capture(CaptureRequest(Scored(env, a.ev), a))]
  {
    DropLast(init, a);
    hide FlowStep, Scored, Outgoing, CaptureRequest;
  }

  // ---------- what the stages leave in an event ----------

  /** Score adds the GeoIP fields of the address to the metadata and a missing mapping, and changes nothing else. */
  lemma {:induction false} ScoreLeaves(env: Env, ev: Event, key: string)
    ensures var out := Scored(env, ev); var geo := env.geo(ev.remoteIP);
      && (key in out.metadata <==> key in ev.metadata || key in geo)
      && (key in geo ==> out.metadata[key] == geo[key])
      && (key in ev.metadata && key !in geo ==> out.metadata[key] == ev.metadata[key])
      && out.mitre == (if ev.mitre.Some? then ev.mitre else Some(env.mapToMitre(ev.decoyName, ev.action, ev.command)))
      && out.(metadata := ev.metadata, mitre := ev.mitre) == ev
  {
  }

  /** The sink adds the path of a capture to the metadata, under pcap_path, and changes nothing else. */
  lemma {:induction false} SinkLeaves(env: Env, earlier: seq<Arrival>, a: Arrival)
    ensures var seen, out, path := Scored(env, a.ev), Outgoing(env, earlier, a), CaptureOf(env, earlier, a);
      && out.(metadata := seen.metadata) == seen
      && (path == None ==> out == seen)
      && (path.Some? ==> out.metadata == seen.metadata["pcap_path" := path.value])
  {
    hide Scored, CaptureOf;
  }

  // ---------- captures of a live run ----------

  lemma {:induction false} NeverClosed(env: Env, arrivals: seq<Arrival>)
    ensures forall i :: 0 <= i < |CaptureActs(env, arrivals)| ==> CaptureActs(env, arrivals)[i].Capture?
  {
    hide Scored, CaptureRequest;
    if arrivals != [] {
      NeverClosed(env, arrivals[..|arrivals| - 1]);
    }
  }

  /**
    In a live run the sink never dereferences nil, and pcap_path is set exactly for events whose score
    reaches the threshold and whose packet could be written.
   */
  lemma {:induction false} SinkCaptures(env: Env, earlier: seq<Arrival>, a: Arrival)
    ensures var acts, ev := CaptureActs(env, earlier), Scored(env, a.ev);
      && !O.CaptureStep(env.pcap, LiveRun(env, earlier).pcap, CaptureRequest(ev, a)).1.NilDereference?
      && (CaptureOf(env, earlier, a).Some? <==>
            && a.ev.threatScore >= env.pcap.threshold
            && (a.captureFault.Nothing?
                || (a.captureFault.OpenFails? && OnDemandProofs.Known(env.pcap, acts, O.Key(a.ev.remoteIP)))))
  {
    hide *;
    var acts, r := CaptureActs(env, earlier), CaptureRequest(Scored(env, a.ev), a);
    LiveRunIs(env, earlier);
    NeverClosed(env, earlier);
    OnDemandProofs.OutcomeExactly(env.pcap, env.captured, acts, r);
    RequestIs(env, a);
    CaptureOfIs(env, earlier, a);
    KeptUnclosed(env.pcap, acts, r);
  }

  lemma {:induction false} RequestIs(env: Env, a: Arrival)
    ensures var r := CaptureRequest(Scored(env, a.ev), a);
      && r.ev.remoteIP == a.ev.remoteIP && r.ev.threatScore == a.ev.threatScore && r.fault == a.captureFault
      && !r.operator
  {
  }

  lemma {:induction false} CaptureOfIs(env: Env, earlier: seq<Arrival>, a: Arrival)
    ensures var acts, r := CaptureActs(env, earlier), CaptureRequest(Scored(env, a.ev), a);
      CaptureOf(env, earlier, a).Some? <==>
      O.CaptureStep(env.pcap, OnDemandProofs.Run(env.pcap, env.captured, acts), r).1.Captured?
  {
    hide CaptureActs, CaptureRequest, Scored, O.CaptureStep, OnDemandProofs.Run;
  }

  lemma {:induction false} KeptUnclosed(cfg: O.Config, acts: seq<OnDemandProofs.Act>, r: O.Request)
    requires forall i :: 0 <= i < |acts| ==> acts[i].Capture?
    ensures var key := O.Key(r.ev.remoteIP);
      && !OnDemandProofs.Shut(cfg, acts, key)
      && (!r.operator ==>
            (OnDemandProofs.Kept(cfg, acts, r) <==>
               r.ev.threatScore >= cfg.threshold
               && (r.fault.Nothing? || (r.fault.OpenFails? && OnDemandProofs.Known(cfg, acts, key)))))
  {
    hide O.Key, OnDemandProofs.Known, OnDemandProofs.FirstOpen;
  }

  /** After any live run every capture file holds exactly the kept packets that went to it. */
  lemma {:induction false} LiveCaptures(env: Env, arrivals: seq<Arrival>)
    ensures OnDemandProofs.DirRight(env.pcap, env.captured, CaptureActs(env, arrivals), LiveRun(env, arrivals).pcap)
  {
    LiveRunIs(env, arrivals);
    OnDemandProofs.DirectoryHolds(env.pcap, env.captured, CaptureActs(env, arrivals));
    hide *;
  }

  // ---------- the offline rebuild ----------

  function Remapped(env: Env, evs: seq<Event>): (r: seq<Event>)
    ensures |r| == |evs|
  {
    seq(|evs|, i requires 0 <= i < |evs| => Mapped(env, evs[i]))
  }

  /** runCampaigns: read every event back, map it if needed, feed a fresh correlator. */
  function Rebuild(env: Env, log: string): Campaigns {
    Replay(env.window, Remapped(env, L.LastOf(L.Logged(env.codec, log), 0)))
  }

  lemma {:induction false} RebuildStep(env: Env, events: seq<Event>, i: nat)
    requires i < |events|
    ensures var all := Remapped(env, events);
      Replay(env.window, all[..i + 1]) == IngestStep(env.window, Replay(env.window, all[..i]), Mapped(env, events[i]))
  {
    var all := Remapped(env, events);
    assert all[..i + 1] == all[..i] + [all[i]];
    DropLast(all[..i], all[i]);
    hide Mapped, IngestStep;
  }

  method RunCampaigns(env: Env, engine: L.Engine, windowFlag: int, show: int -> string) returns (corr: Correlator)
    requires env.codec == engine.codec && env.window == WindowFor(windowFlag, show)
    ensures fresh(corr) && corr.Valid() && corr.View() == Rebuild(env, engine.log)
  {
    hide Remapped, Mapped, IngestStep, Replay, L.Logged, L.LastOf;
    corr := new Correlator(windowFlag, show);
    var events := engine.RecentEvents(0);
    ghost var all := Remapped(env, events);
    NothingYet(env, all);
    for i := 0 to |events|
      invariant corr.Valid() && fresh(corr) && fresh(corr.campaigns.Values)
      invariant corr.window == env.window && corr.View() == Replay(env.window, all[..i])
    {
      var ev := events[i];
      if ev.mitre == None {
        ev := ev.(mitre := Some(env.mapToMitre(ev.decoyName, ev.action, ev.command)));
      }
      MappedIs(env, events[i]);
      RebuildStep(env, events, i);
      var _ := corr.Ingest(ev);
    }
    assert all[..|events|] == all;
  }

  lemma {:induction false} NothingYet(env: Env, all: seq<Event>)
    ensures Replay(env.window, all[..0]) == map[]
  {
  }

  lemma {:induction false} MappedIs(env: Env, ev: Event)
    ensures Mapped(env, ev) ==
      if ev.mitre == None then ev.(mitre := Some(env.mapToMitre(ev.decoyName, ev.action, ev.command))) else ev
  {
  }
}
