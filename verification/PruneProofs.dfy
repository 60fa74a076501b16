// Pruning idle campaigns is invisible to later ingests, and exactly when it would not be.
module PruneProofs {
  import opened Basics
  import opened Events
  import opened Sessions
  import opened Correlators
  import opened CampaignProofs

  /** A run of the correlator: events arriving, with prunes wherever a caller puts them. */
  datatype Op = Ingest(ev: Event) | Prune(now: Time)

  function Apply(w: Window, m: Campaigns, op: Op): Campaigns {
    match op
    case Ingest(ev) => IngestStep(w, m, ev)
    case Prune(now) => PruneStep(w, m, now)
  }

  /** The campaigns returned by the Ingest calls of a run, in order. */
  function Reports(w: Window, m: Campaigns, ops: seq<Op>): seq<Campaign>
    decreases |ops|
  {
    if ops == [] then []
    else
      var m' := Apply(w, m, ops[0]);
      (if ops[0].Ingest? then [m'[ops[0].ev.remoteIP]] else []) + Reports(w, m', ops[1..])
  }

  function WithoutPrunes(ops: seq<Op>): seq<Op> {
    if ops == [] then []
    else (if ops[0].Ingest? then [ops[0]] else []) + WithoutPrunes(ops[1..])
  }

  /** No event arrives with a time before a prune that preceded it, and none carries the zero time. */
  ghost predicate Timely(ops: seq<Op>) {
    && (forall i, j :: 0 <= i < j < |ops| && ops[i].Prune? && ops[j].Ingest? ==> ops[i].now <= ops[j].ev.timestamp)
    && (forall i :: 0 <= i < |ops| && ops[i].Ingest? ==> ops[i].ev.timestamp != ZERO_TIME)
  }

  /** The next event of ip, if one comes, would join c. */
  predicate NextJoins(w: Window, c: Campaign, ip: string, ops: seq<Op>)
    decreases |ops|
  {
    ops != [] &&
    if ops[0].Ingest? && ops[0].ev.remoteIP == ip then !Expired(w, c, ops[0].ev.timestamp)
    else NextJoins(w, c, ip, ops[1..])
  }

  /** No prune of the run removes a campaign that the next event of its address would have joined. */
  ghost predicate Harmless(w: Window, m: Campaigns, ops: seq<Op>)
    decreases |ops|
  {
    ops != [] ==>
      && (ops[0].Prune? ==> forall ip :: ip in m && Idle(w, m[ip], ops[0].now) ==> !NextJoins(w, m[ip], ip, ops[1..]))
      && Harmless(w, Apply(w, m, ops[0]), ops[1..])
  }

  ghost predicate NonEmptyCampaigns(m: Campaigns) {
    forall ip :: ip in m ==> m[ip].totalEvents >= 1
  }

  /** p is u less some entries that the next event of their address would not join. */
  ghost predicate Agrees(w: Window, p: Campaigns, u: Campaigns, ops: seq<Op>) {
    && NonEmptyCampaigns(u)
    && (forall ip :: ip in p ==> ip in u && p[ip] == u[ip])
    && (forall ip :: ip in u && ip !in p ==> !NextJoins(w, u[ip], ip, ops))
  }

  lemma {:induction false} AbsorbCounts(w: Window, c: Campaign, ev: Event)
    ensures AbsorbStep(w, c, ev).totalEvents == c.totalEvents + 1
  {
  }

  lemma {:induction false} IngestKeepsAgreement(w: Window, p: Campaigns, u: Campaigns, ops: seq<Op>)
    requires ops != [] && ops[0].Ingest? && Agrees(w, p, u, ops)
    ensures var ev := ops[0].ev;
      && Joined(w, p, ev) == Joined(w, u, ev)
      && Agrees(w, IngestStep(w, p, ev), IngestStep(w, u, ev), ops[1..])
  {
    var ev := ops[0].ev;
    SameJoined(w, p, u, ops);
    AbsorbCounts(w, Joined(w, u, ev), ev);
    IngestChanges(w, p, ev);
    IngestChanges(w, u, ev);
    var c := AbsorbStep(w, Joined(w, u, ev), ev);
    hide AbsorbStep, Joined, IngestStep;
    AgreementKept(w, p, u, ops, c);
  }

  /** Filing the same campaign under the event's address keeps two maps in agreement. */
  lemma {:induction false} AgreementKept(w: Window, p: Campaigns, u: Campaigns, ops: seq<Op>, c: Campaign)
    requires ops != [] && ops[0].Ingest? && Agrees(w, p, u, ops) && c.totalEvents >= 1
    ensures var ip := ops[0].ev.remoteIP; Agrees(w, p[ip := c], u[ip := c], ops[1..])
  {
    hide Expired;
  }

  lemma {:induction false} SameJoined(w: Window, p: Campaigns, u: Campaigns, ops: seq<Op>)
    requires ops != [] && ops[0].Ingest? && Agrees(w, p, u, ops)
    ensures Joined(w, p, ops[0].ev) == Joined(w, u, ops[0].ev)
  {
    hide NewCampaign;
  }

  lemma {:induction false} IngestChanges(w: Window, m: Campaigns, ev: Event)
    ensures IngestStep(w, m, ev) == m[ev.remoteIP := AbsorbStep(w, Joined(w, m, ev), ev)]
  {
    hide AbsorbStep, Joined;
  }

  lemma {:induction false} PruneKeepsAgreement(w: Window, p: Campaigns, u: Campaigns, ops: seq<Op>)
    requires ops != [] && ops[0].Prune? && Agrees(w, p, u, ops)
    requires forall ip :: ip in p && Idle(w, p[ip], ops[0].now) ==> !NextJoins(w, p[ip], ip, ops[1..])
    ensures Agrees(w, PruneStep(w, p, ops[0].now), u, ops[1..])
  {
  }

  /** Once a campaign that the next event would join is gone from p, the reports differ at that event. */
  lemma {:induction false} RemovalShows(w: Window, p: Campaigns, u: Campaigns, ip: string, ops: seq<Op>)
    requires ip !in p && ip in u && u[ip].totalEvents >= 1 && NextJoins(w, u[ip], ip, ops)
    ensures Reports(w, p, ops) != Reports(w, u, WithoutPrunes(ops))
    decreases |ops|
  {
    var op := ops[0];
    hide AbsorbStep, Expired, Idle, NewCampaign, Joined;
    if op.Prune? {
      RemovalShows(w, PruneStep(w, p, op.now), u, ip, ops[1..]);
      assert WithoutPrunes(ops) == WithoutPrunes(ops[1..]);
    } else {
      HeadReports(w, p, u, ops);
      if op.ev.remoteIP == ip {
        FreshIsOther(w, p, u, op.ev);
      } else {
        RemovalShows(w, IngestStep(w, p, op.ev), IngestStep(w, u, op.ev), ip, ops[1..]);
      }
    }
  }

  lemma {:induction false} HeadReport(w: Window, m: Campaigns, op: Op, rest: seq<Op>)
    requires op.Ingest?
    ensures var m' := IngestStep(w, m, op.ev);
      Reports(w, m, [op] + rest) == [m'[op.ev.remoteIP]] + Reports(w, m', rest)
  {
    assert ([op] + rest)[1..] == rest;
    hide AbsorbStep, Joined;
  }

  /** At an event, the reports go on agreeing exactly when the two maps agree on it and on what follows. */
  lemma {:induction false} HeadReports(w: Window, p: Campaigns, u: Campaigns, ops: seq<Op>)
    requires ops != [] && ops[0].Ingest?
    ensures var ev, rest := ops[0].ev, ops[1..];
      var p', u' := IngestStep(w, p, ev), IngestStep(w, u, ev);
      Reports(w, p, ops) == Reports(w, u, WithoutPrunes(ops)) <==>
      p'[ev.remoteIP] == u'[ev.remoteIP] && Reports(w, p', rest) == Reports(w, u', WithoutPrunes(rest))
  {
    var ev, rest := ops[0].ev, ops[1..];
    hide Reports, IngestStep;
    var p', u' := IngestStep(w, p, ev), IngestStep(w, u, ev);
    assert ops == [ops[0]] + rest;
    HeadReport(w, p, ops[0], rest);
    HeadReport(w, u, ops[0], WithoutPrunes(rest));
    IngestReports(w, p, ev);
    IngestReports(w, u, ev);
    ConsEqual(p'[ev.remoteIP], Reports(w, p', rest), u'[ev.remoteIP], Reports(w, u', WithoutPrunes(rest)));
  }

  lemma {:induction false} IngestReports(w: Window, m: Campaigns, ev: Event)
    ensures ev.remoteIP in IngestStep(w, m, ev)
    ensures IngestStep(w, m, ev)[ev.remoteIP] == AbsorbStep(w, Joined(w, m, ev), ev)
  {
    hide AbsorbStep, Joined;
  }

  lemma {:induction false} FreshIsOther(w: Window, p: Campaigns, u: Campaigns, ev: Event)
    requires ev.remoteIP !in p && ev.remoteIP in u && u[ev.remoteIP].totalEvents >= 1
    requires !Expired(w, u[ev.remoteIP], ev.timestamp)
    ensures IngestStep(w, p, ev)[ev.remoteIP] != IngestStep(w, u, ev)[ev.remoteIP]
  {
    AbsorbCounts(w, Joined(w, p, ev), ev);
    AbsorbCounts(w, Joined(w, u, ev), ev);
    hide AbsorbStep;
  }

  lemma {:induction false} AgreementDecides(w: Window, p: Campaigns, u: Campaigns, ops: seq<Op>)
    requires Agrees(w, p, u, ops)
    ensures Reports(w, p, ops) == Reports(w, u, WithoutPrunes(ops)) <==> Harmless(w, p, ops)
    decreases |ops|
  {
    if ops != [] {
      var op := ops[0];
      hide AbsorbStep, Expired, Idle, NewCampaign, Joined, Agrees, Reports, PruneStep, NextJoins;
      if op.Ingest? {
        IngestKeepsAgreement(w, p, u, ops);
        HeadReports(w, p, u, ops);
        IngestReports(w, p, op.ev);
        IngestReports(w, u, op.ev);
        AgreementDecides(w, IngestStep(w, p, op.ev), IngestStep(w, u, op.ev), ops[1..]);
      } else {
        SkipPrune(w, p, u, ops);
        if ip :| ip in p && Idle(w, p[ip], op.now) && NextJoins(w, p[ip], ip, ops[1..]) {
          RemovedByPrune(w, p, u, ip, ops);
        } else {
          PruneKeepsAgreement(w, p, u, ops);
          AgreementDecides(w, PruneStep(w, p, op.now), u, ops[1..]);
        }
      }
    } else {
      assert Reports(w, p, ops) == Reports(w, u, WithoutPrunes(ops)) == [];
    }
  }

  lemma {:induction false} SkipPrune(w: Window, p: Campaigns, u: Campaigns, ops: seq<Op>)
    requires ops != [] && ops[0].Prune?
    ensures WithoutPrunes(ops) == WithoutPrunes(ops[1..])
    ensures Reports(w, p, ops) == Reports(w, PruneStep(w, p, ops[0].now), ops[1..])
  {
    hide PruneStep;
  }

  lemma {:induction false} RemovedByPrune(w: Window, p: Campaigns, u: Campaigns, ip: string, ops: seq<Op>)
    requires ops != [] && ops[0].Prune? && Agrees(w, p, u, ops)
    requires ip in p && Idle(w, p[ip], ops[0].now) && NextJoins(w, p[ip], ip, ops[1..])
    ensures Reports(w, PruneStep(w, p, ops[0].now), ops[1..]) != Reports(w, u, WithoutPrunes(ops[1..]))
  {
    var p' := PruneStep(w, p, ops[0].now);
    hide Reports, WithoutPrunes, NextJoins;
    RemovalShows(w, p', u, ip, ops[1..]);
  }

  /**
    Main result. With no assumption on times: prunes inserted anywhere in a run change no campaign that an
    Ingest returns if and only if no prune removes a campaign that its address's next event would have
    joined.
   */
  lemma {:induction false} PrunesInvisibleExactly(w: Window, ops: seq<Op>)
    ensures Reports(w, map[], ops) == Reports(w, map[], WithoutPrunes(ops)) <==> Harmless(w, map[], ops)
  {
    AgreementDecides(w, map[], map[], ops);
  }

  lemma {:induction false} TimelyTail(ops: seq<Op>)
    requires ops != [] && Timely(ops)
    ensures Timely(ops[1..])
  {
  }

  /** A campaign idle at a prune has expired for every event not before the prune. */
  lemma {:induction false} IdleNeverJoined(w: Window, c: Campaign, ip: string, now: Time, ops: seq<Op>)
    requires Idle(w, c, now) && c.lastSeen != ZERO_TIME
    requires forall i :: 0 <= i < |ops| && ops[i].Ingest? ==> now <= ops[i].ev.timestamp
    ensures !NextJoins(w, c, ip, ops)
    decreases |ops|
  {
    if ops != [] {
      IdleNeverJoined(w, c, ip, now, ops[1..]);
    }
  }

  ghost predicate NoneAtZero(m: Campaigns) {
    forall ip :: ip in m ==> m[ip].lastSeen != ZERO_TIME
  }

  lemma {:induction false} TimelyIsHarmless(w: Window, m: Campaigns, ops: seq<Op>)
    requires Timely(ops) && NoneAtZero(m)
    ensures Harmless(w, m, ops)
    decreases |ops|
  {
    if ops != [] {
      TimelyTail(ops);
      if ops[0].Prune? {
        forall ip | ip in m && Idle(w, m[ip], ops[0].now)
          ensures !NextJoins(w, m[ip], ip, ops[1..])
        {
          IdleNeverJoined(w, m[ip], ip, ops[0].now, ops[1..]);
        }
      } else {
        AbsorbSees(w, Joined(w, m, ops[0].ev), ops[0].ev);
      }
      hide AbsorbStep, Joined, Idle;
      TimelyIsHarmless(w, Apply(w, m, ops[0]), ops[1..]);
    }
  }

  lemma {:induction false} AbsorbSees(w: Window, c: Campaign, ev: Event)
    ensures AbsorbStep(w, c, ev).lastSeen == ev.timestamp
  {
  }

  /**
    Main result. Prunes inserted anywhere in a timely run change no campaign that a later Ingest
    returns.
   */
  lemma {:induction false} PruningInvisible(w: Window, ops: seq<Op>)
    requires Timely(ops)
    ensures Reports(w, map[], ops) == Reports(w, map[], WithoutPrunes(ops))
  {
    PrunesInvisibleExactly(w, ops);
    TimelyIsHarmless(w, map[], ops);
  }

  /**
    Without any assumption on times: after any stream, pruning just before an event changes the
    campaign that event reports exactly when the address's campaign is idle at the prune but the
    event would still have joined it.
   */
  lemma {:induction false} PruneVisibleExactly(w: Window, evs: seq<Event>, now: Time, ev: Event)
    ensures var m := Replay(w, evs); var ip := ev.remoteIP;
      IngestStep(w, PruneStep(w, m, now), ev)[ip] != IngestStep(w, m, ev)[ip]
      <==> ip in m && Idle(w, m[ip], now) && !Expired(w, m[ip], ev.timestamp)
  {
    var m := Replay(w, evs);
    if ev.remoteIP in m {
      CampaignShape(w, evs, ev.remoteIP);
      var pruned, kept := Joined(w, PruneStep(w, m, now), ev), Joined(w, m, ev);
      assert AbsorbStep(w, pruned, ev).totalEvents == pruned.totalEvents + 1;
      assert AbsorbStep(w, kept, ev).totalEvents == kept.totalEvents + 1;
    }
  }

  /** An event at the zero time is pruned at once although Ingest would never expire it. */
  lemma {:induction false} ZeroTimeIsPrunedEarly(w: Window, first: Event, now: Time, ev: Event)
    requires first.timestamp == ZERO_TIME && ev.remoteIP == first.remoteIP
    requires Sub(now, ZERO_TIME) > w.length
    ensures var m := Replay(w, [first]); var ip := ev.remoteIP;
      IngestStep(w, PruneStep(w, m, now), ev)[ip] != IngestStep(w, m, ev)[ip]
  {
    var none: seq<Event> := [first][..0];
    assert Replay(w, [first]) == IngestStep(w, Replay(w, none), first);
    PruneVisibleExactly(w, [first], now, ev);
  }
}
