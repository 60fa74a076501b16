// The listener multiplexer as a state machine: each step is one atomic action of one goroutine.
// Start and Stop may overlap with serve loops and handlers in any order, but not with each other;
// a Stop call made while the multiplexer is not running returns at once and is no step.
module Multiplexer {

  type ListenerId = nat
  type ConnId = nat

  /** Where the goroutine inside Start is: between calls, binding ports, or about to spawn a serve loop. */
  datatype StartPc = NotStarting | Binding | Bound(lid: ListenerId) | Counted(lid: ListenerId)

  /**
    Closing the listeners does not touch the connections: a handler returns only once its conversation
    is over, because the peer hung up or sent what ends it, or because the deadline passed that is set
    on every connection when IdleTimeout is positive.
   */
  datatype State = State(
    timed: bool,                         // IdleTimeout > 0
    running: bool,
    starting: StartPc,
    stopping: bool,                      // some Stop is blocked in wg.Wait
    listeners: set<ListenerId>,          // m.listeners
    open: set<ListenerId>,               // listeners the operating system still accepts on
    bound: set<ListenerId>,              // every listener ever bound
    accepting: set<ListenerId>,          // serve loops at ln.Accept
    accepted: set<ListenerId>,           // serve loops that hold a connection, before wg.Add
    counted: set<ListenerId>,            // serve loops after wg.Add, before the handler goroutine
    held: map<ListenerId, ConnId>,       // the connection such a serve loop holds
    exiting: set<ListenerId>,            // serve loops that returned, before the deferred wg.Done
    handling: set<ConnId>,               // handlers running, connection open
    closing: set<ConnId>,                // handlers after c.Close, before wg.Done
    seen: set<ConnId>,                   // every connection ever accepted
    ended: set<ConnId>,                  // connections whose conversation is over
    closed: set<ConnId>,                 // every connection closed
    wg: int)

  function Initial(timed: bool): State {
    State(timed, false, NotStarting, false, {}, {}, {}, {}, {}, {}, map[], {}, {}, {}, {}, {}, {}, 0)
  }

  datatype Step =
    | StartBegin
    | StartBind(lid: ListenerId)
    | StartAdd
    | StartSpawn
    | StartReturn
    | Accept(lid: ListenerId, conn: ConnId)
    | AcceptError(lid: ListenerId)
    | LoopAdd(lid: ListenerId)
    | LoopSpawn(lid: ListenerId)
    | LoopDone(lid: ListenerId)
    | PeerEnds(conn: ConnId)
    | DeadlinePasses(conn: ConnId)
    | HandlerClose(conn: ConnId)
    | HandlerDone(conn: ConnId)
    | StopBegin
    | StopReturn

  predicate Enabled(s: State, t: Step) {
    match t
    case StartBegin => !s.running && s.starting == NotStarting && !s.stopping
    case StartBind(lid) => s.starting == Binding && lid !in s.bound
    case StartAdd => s.starting.Bound?
    case StartSpawn => s.starting.Counted?
    case StartReturn => s.starting == Binding
    // Accept succeeds only on a listener that is still open; conn is a new connection.
    case Accept(lid, conn) => lid in s.accepting && lid in s.open && conn !in s.seen
    // Accept may fail at any time, and must once the listener is closed.
    case AcceptError(lid) => lid in s.accepting
    case LoopAdd(lid) => lid in s.accepted
    case LoopSpawn(lid) => lid in s.counted && lid in s.held
    case LoopDone(lid) => lid in s.exiting
    case PeerEnds(conn) => conn in s.seen - s.ended
    case DeadlinePasses(conn) => s.timed && conn in s.handling - s.ended
    case HandlerClose(conn) => conn in s.handling && conn in s.ended
    case HandlerDone(conn) => conn in s.closing
    case StopBegin => s.running && s.starting == NotStarting
    case StopReturn => s.stopping && s.wg == 0
  }

  function Next(s: State, t: Step): State
    requires Enabled(s, t)
  {
    match t
    case StartBegin => s.(running := true, starting := Binding)
    case StartBind(lid) =>
      s.(starting := Bound(lid), bound := s.bound + {lid}, open := s.open + {lid}, listeners := s.listeners + {lid})
    case StartAdd => s.(starting := Counted(s.starting.lid), wg := s.wg + 1)
    case StartSpawn => s.(starting := Binding, accepting := s.accepting + {s.starting.lid})
    case StartReturn => s.(starting := NotStarting)
    case Accept(lid, conn) =>
      s.(accepting := s.accepting - {lid}, accepted := s.accepted + {lid}, held := s.held[lid := conn],
         seen := s.seen + {conn})
    case AcceptError(lid) => s.(accepting := s.accepting - {lid}, exiting := s.exiting + {lid})
    case LoopAdd(lid) =>
      s.(accepted := s.accepted - {lid}, counted := s.counted + {lid}, wg := s.wg + 1)
    case LoopSpawn(lid) =>
      s.(counted := s.counted - {lid}, held := s.held - {lid}, accepting := s.accepting + {lid},
         handling := s.handling + {s.held[lid]})
    case LoopDone(lid) => s.(exiting := s.exiting - {lid}, wg := s.wg - 1)
    case PeerEnds(conn) => s.(ended := s.ended + {conn})
    case DeadlinePasses(conn) => s.(ended := s.ended + {conn})
    case HandlerClose(conn) =>
      s.(handling := s.handling - {conn}, closing := s.closing + {conn}, closed := s.closed + {conn})
    case HandlerDone(conn) => s.(closing := s.closing - {conn}, wg := s.wg - 1)
    case StopBegin => s.(running := false, open := s.open - s.listeners, listeners := {}, stopping := true)
    case StopReturn => s.(stopping := false)
  }

  // ---------- the inductive invariant ----------

  /** What the WaitGroup should count: live serve loops, handlers, and Adds whose goroutine is not up yet. */
  function Owed(s: State): nat {
    |s.accepting| + |s.accepted| + 2 * |s.counted| + |s.exiting| + |s.handling| + |s.closing|
    + (if s.starting.Counted? then 1 else 0)
  }

  /** A serve loop is in one place at a time, and holds a connection exactly between Accept and spawn. */
  predicate LoopsApart(s: State) {
    && s.accepting !! s.accepted !! s.counted !! s.exiting
    && s.held.Keys == s.accepted + s.counted
  }

  predicate LoopsBound(s: State) {
    && s.accepting <= s.bound && s.accepted <= s.bound && s.counted <= s.bound && s.exiting <= s.bound
    && (s.starting.Bound? || s.starting.Counted? ==>
          s.starting.lid in s.bound - s.accepting - s.accepted - s.counted - s.exiting)
  }

  /** An open listener is registered, and only a running multiplexer has any. */
  predicate ListenersKnown(s: State) {
    && s.open <= s.listeners <= s.bound
    && (!s.running ==> s.listeners == {})
    && (s.starting != NotStarting ==> s.running)
    && (s.stopping ==> !s.running)
  }

  /** Every accepted connection is held by one serve loop, with its handler, or closed. */
  ghost predicate ConnsAccounted(s: State) {
    && s.handling <= s.seen && s.closed <= s.seen && s.handling !! s.closed && s.closing <= s.closed
    && (forall lid :: lid in s.held ==> s.held[lid] in s.seen - s.handling - s.closed)
    && (forall a, b :: a in s.held && b in s.held && s.held[a] == s.held[b] ==> a == b)
    && (forall c :: c in s.seen - s.handling - s.closed ==> exists lid :: lid in s.held && s.held[lid] == c)
  }

  ghost predicate Inv(s: State) {
    s.wg == Owed(s) && LoopsApart(s) && LoopsBound(s) && ListenersKnown(s) && ConnsAccounted(s)
  }

  /** A finite run from s: every step enabled in turn. */
  ghost predicate Run(s: State, steps: seq<Step>, s': State)
    decreases |steps|
  {
    if steps == [] then s == s'
    else Enabled(s, steps[0]) && Run(Next(s, steps[0]), steps[1..], s')
  }

  // Each part of the invariant, one kind of step at a time.

  predicate StartOrStop(t: Step) {
    t.StartBegin? || t.StartBind? || t.StartAdd? || t.StartSpawn? || t.StartReturn? || t.StopBegin? || t.StopReturn?
  }

  predicate EndStep(t: Step) {
    t.PeerEnds? || t.DeadlinePasses?
  }

  lemma {:induction false} LoopsKeptByStart(s: State, t: Step)
    requires LoopsApart(s) && LoopsBound(s) && Enabled(s, t) && StartOrStop(t)
    ensures LoopsApart(Next(s, t)) && LoopsBound(Next(s, t))
  {
  }

  lemma {:induction false} LoopsUntouched(s: State, t: Step)
    requires Enabled(s, t) && (t.HandlerClose? || t.HandlerDone? || EndStep(t))
    ensures var s' := Next(s, t);
      && s'.accepting == s.accepting && s'.accepted == s.accepted && s'.counted == s.counted && s'.exiting == s.exiting
      && s'.held == s.held && s'.bound == s.bound && s'.starting == s.starting
  {
  }

  lemma {:induction false} LoopsKeptElsewhere(s: State, t: Step)
    requires LoopsApart(s) && LoopsBound(s) && Enabled(s, t) && (t.HandlerClose? || t.HandlerDone? || EndStep(t))
    ensures LoopsApart(Next(s, t)) && LoopsBound(Next(s, t))
  {
    LoopsUntouched(s, t);
    hide Next, Enabled;
  }

  lemma {:induction false} LoopsKeptByAccept(s: State, t: Step)
    requires LoopsApart(s) && LoopsBound(s) && Enabled(s, t) && (t.Accept? || t.AcceptError?)
    ensures LoopsApart(Next(s, t)) && LoopsBound(Next(s, t))
  {
  }

  lemma {:induction false} LoopsKeptByAdd(s: State, t: Step)
    requires LoopsApart(s) && LoopsBound(s) && Enabled(s, t) && (t.LoopAdd? || t.LoopDone?)
    ensures LoopsApart(Next(s, t)) && LoopsBound(Next(s, t))
  {
  }

  lemma {:induction false} LoopsKeptBySpawn(s: State, t: Step)
    requires LoopsApart(s) && LoopsBound(s) && Enabled(s, t) && t.LoopSpawn?
    ensures LoopsApart(Next(s, t)) && LoopsBound(Next(s, t))
  {
  }

  lemma {:induction false} ListenersKept(s: State, t: Step)
    requires ListenersKnown(s) && Enabled(s, t)
    ensures ListenersKnown(Next(s, t))
  {
  }

  lemma {:induction false} CountKeptByStart(s: State, t: Step)
    requires s.wg == Owed(s) && LoopsBound(s) && Enabled(s, t) && StartOrStop(t)
    ensures Next(s, t).wg == Owed(Next(s, t))
  {
  }

  lemma {:induction false} CountKeptByEnd(s: State, t: Step)
    requires s.wg == Owed(s) && Enabled(s, t) && EndStep(t)
    ensures Next(s, t).wg == Owed(Next(s, t))
  {
  }

  /** Moving one element between two disjoint sets. */
  lemma {:induction false} Moved(from: set<nat>, to: set<nat>, x: nat)
    requires x in from && x !in to
    ensures |from - {x}| == |from| - 1 && |to + {x}| == |to| + 1
  {
  }

  lemma {:induction false} CountKeptByAccept(s: State, t: Step)
    requires s.wg == Owed(s) && Enabled(s, t) && t.Accept? && t.lid !in s.accepted
    ensures Next(s, t).wg == Owed(Next(s, t))
  {
    Moved(s.accepting, s.accepted, t.lid);
  }

  lemma {:induction false} CountKeptByError(s: State, t: Step)
    requires s.wg == Owed(s) && Enabled(s, t) && t.AcceptError? && t.lid !in s.exiting
    ensures Next(s, t).wg == Owed(Next(s, t))
  {
    Moved(s.accepting, s.exiting, t.lid);
  }

  lemma {:induction false} CountKeptByAdd(s: State, t: Step)
    requires s.wg == Owed(s) && Enabled(s, t) && t.LoopAdd? && t.lid !in s.counted
    ensures Next(s, t).wg == Owed(Next(s, t))
  {
    Moved(s.accepted, s.counted, t.lid);
  }

  lemma {:induction false} CountKeptByDone(s: State, t: Step)
    requires s.wg == Owed(s) && Enabled(s, t) && t.LoopDone?
    ensures Next(s, t).wg == Owed(Next(s, t))
  {
    Moved(s.exiting, s.exiting - {t.lid}, t.lid);
  }

  lemma {:induction false} CountKeptBySpawn(s: State, t: Step)
    requires s.wg == Owed(s) && LoopsApart(s) && Enabled(s, t) && t.LoopSpawn?
    requires s.held[t.lid] !in s.handling
    ensures Next(s, t).wg == Owed(Next(s, t))
  {
    Moved(s.counted, s.accepting, t.lid);
  }

  lemma {:induction false} CountKeptByHandler(s: State, t: Step)
    requires s.wg == Owed(s) && Enabled(s, t) && (t.HandlerClose? || t.HandlerDone?)
    requires s.handling !! s.closing
    ensures Next(s, t).wg == Owed(Next(s, t))
  {
  }

  lemma {:induction false} ConnsKeptByAccept(s: State, t: Step)
    requires ConnsAccounted(s) && LoopsApart(s) && Enabled(s, t) && t.Accept?
    ensures ConnsAccounted(Next(s, t))
  {
    var s' := Next(s, t);
    assert t.lid !in s.held;
    forall c | c in s'.seen - s'.handling - s'.closed
      ensures exists lid :: lid in s'.held && s'.held[lid] == c
    {
      if c == t.conn {
        assert s'.held[t.lid] == c;
      } else {
        assert c in s.seen - s.handling - s.closed;
        var lid :| lid in s.held && s.held[lid] == c;
        assert s'.held[lid] == c;
      }
    }
  }

  lemma {:induction false} ConnsKeptBySpawn(s: State, t: Step)
    requires ConnsAccounted(s) && LoopsApart(s) && Enabled(s, t) && t.LoopSpawn?
    ensures ConnsAccounted(Next(s, t))
  {
    var s' := Next(s, t);
    forall c | c in s'.seen - s'.handling - s'.closed
      ensures exists lid :: lid in s'.held && s'.held[lid] == c
    {
      assert c in s.seen - s.handling - s.closed;
      var lid :| lid in s.held && s.held[lid] == c;
      assert s'.held[lid] == c;
    }
  }

  lemma {:induction false} ConnsKeptByClose(s: State, t: Step)
    requires ConnsAccounted(s) && Enabled(s, t) && t.HandlerClose?
    ensures ConnsAccounted(Next(s, t))
  {
    var s' := Next(s, t);
    assert s'.held == s.held && s'.seen == s.seen;
    assert s'.seen - s'.handling - s'.closed == s.seen - s.handling - s.closed;
  }

  lemma {:induction false} ConnsKeptElsewhere(s: State, t: Step)
    requires ConnsAccounted(s) && Enabled(s, t) && !t.Accept? && !t.LoopSpawn? && !t.HandlerClose?
    ensures ConnsAccounted(Next(s, t))
  {
    UntouchedConns(s, t);
    hide Next, Enabled;
  }

  lemma {:induction false} UntouchedConns(s: State, t: Step)
    requires Enabled(s, t) && !t.Accept? && !t.LoopSpawn? && !t.HandlerClose?
    ensures var s' := Next(s, t);
      s'.held == s.held && s'.seen == s.seen && s'.handling == s.handling && s'.closed == s.closed
      && s'.closing <= s.closing
  {
  }

  lemma {:induction false} InvKept(s: State, t: Step)
    requires Inv(s) && Enabled(s, t)
    ensures Inv(Next(s, t))
  {
    ListenersKept(s, t);
    NotYetThere(s, t);
    hide Next, LoopsApart, LoopsBound, ListenersKnown;
    match t
    case Accept(_, _) =>
      LoopsKeptByAccept(s, t);
      CountKeptByAccept(s, t);
      ConnsKeptByAccept(s, t);
    case AcceptError(_) =>
      LoopsKeptByAccept(s, t);
      CountKeptByError(s, t);
      ConnsKeptElsewhere(s, t);
    case LoopAdd(_) =>
      LoopsKeptByAdd(s, t);
      CountKeptByAdd(s, t);
      ConnsKeptElsewhere(s, t);
    case LoopSpawn(_) =>
      LoopsKeptBySpawn(s, t);
      CountKeptBySpawn(s, t);
      ConnsKeptBySpawn(s, t);
    case LoopDone(_) =>
      LoopsKeptByAdd(s, t);
      CountKeptByDone(s, t);
      ConnsKeptElsewhere(s, t);
    case HandlerClose(_) =>
      LoopsKeptElsewhere(s, t);
      CountKeptByHandler(s, t);
      ConnsKeptByClose(s, t);
    case HandlerDone(_) =>
      LoopsKeptElsewhere(s, t);
      CountKeptByHandler(s, t);
      ConnsKeptElsewhere(s, t);
    case PeerEnds(_) =>
      LoopsKeptElsewhere(s, t);
      CountKeptByEnd(s, t);
      ConnsKeptElsewhere(s, t);
    case DeadlinePasses(_) =>
      LoopsKeptElsewhere(s, t);
      CountKeptByEnd(s, t);
      ConnsKeptElsewhere(s, t);
    case _ =>
      LoopsKeptByStart(s, t);
      CountKeptByStart(s, t);
      ConnsKeptElsewhere(s, t);
  }

  /** A serve loop about to move is not already where it moves to. */
  lemma {:induction false} NotYetThere(s: State, t: Step)
    requires LoopsApart(s) && Enabled(s, t)
    ensures t.Accept? ==> t.lid !in s.accepted
    ensures t.AcceptError? ==> t.lid !in s.exiting
    ensures t.LoopAdd? ==> t.lid !in s.counted
  {
  }

  lemma {:induction false} InvAlong(s: State, steps: seq<Step>, s': State)
    requires Inv(s) && Run(s, steps, s')
    ensures Inv(s')
    decreases |steps|
  {
    hide Inv;
    if steps != [] {
      InvKept(s, steps[0]);
      InvAlong(Next(s, steps[0]), steps[1..], s');
    }
  }

  // ---------- the lifecycle theorems ----------

  /**
    Main result. In every interleaving the WaitGroup counter is the number of live serve loops and
    handlers plus Adds in flight, and no Add that may meet a waiting Stop starts from zero.
   */
  lemma {:induction false} WaitGroupExact(timed: bool, steps: seq<Step>, s: State)
    requires Run(Initial(timed), steps, s)
    ensures s.wg == Owed(s)
    ensures forall lid :: Enabled(s, LoopAdd(lid)) ==> s.wg > 0
    ensures s.stopping ==> !Enabled(s, StartAdd)
  {
    hide *;
    InitialInv(timed);
    InvAlong(Initial(timed), steps, s);
    InvParts(s);
    forall lid | Enabled(s, LoopAdd(lid))
      ensures s.wg > 0
    {
      AddStarts(s, lid);
      HolderIsOwed(s, lid);
    }
    NoStartWhileStopping(s);
  }

  lemma {:induction false} InitialInv(timed: bool)
    ensures Inv(Initial(timed))
  {
  }

  lemma {:induction false} InvParts(s: State)
    requires Inv(s)
    ensures s.wg == Owed(s) && LoopsApart(s) && LoopsBound(s) && ListenersKnown(s) && ConnsAccounted(s)
  {
    hide Owed, LoopsApart, LoopsBound, ListenersKnown, ConnsAccounted;
  }

  lemma {:induction false} AddStarts(s: State, lid: ListenerId)
    requires Enabled(s, LoopAdd(lid))
    ensures lid in s.accepted
  {
  }

  lemma {:induction false} NoStartWhileStopping(s: State)
    requires ListenersKnown(s)
    ensures s.stopping ==> !Enabled(s, StartAdd)
  {
  }

  lemma {:induction false} HolderIsOwed(s: State, lid: ListenerId)
    requires lid in s.accepted
    ensures Owed(s) > 0
  {
  }

  /**
    Main result. When the Stop that found the multiplexer running returns, no serve loop and no handler
    is alive, every connection ever accepted has been closed, and nothing at all can happen - in
    particular no connection is accepted - before the next Start.
   */
  lemma {:induction false} StopLeavesNothing(timed: bool, steps: seq<Step>, s: State)
    requires Run(Initial(timed), steps, s) && Enabled(s, StopReturn)
    ensures var s' := Next(s, StopReturn);
      && s'.accepting + s'.accepted + s'.counted + s'.exiting == {}
      && s'.handling + s'.closing == {}
      && s'.seen == s'.closed && s'.open == {} && !s'.running
      && forall t :: Enabled(s', t) ==> t == StartBegin || t.PeerEnds?
  {
    InvAlong(Initial(timed), steps, s);
    NothingOwed(s);
    assert s.held == map[];
    assert forall c :: c in s.seen ==> c !in s.seen - s.handling - s.closed;
  }

  lemma {:induction false} NothingOwed(s: State)
    requires Owed(s) == 0
    ensures s.accepting == s.accepted == s.counted == s.exiting == {} && s.handling == s.closing == {}
  {
  }

  // ---------- when a waiting Stop returns ----------

  /** How many steps the goroutines still alive can take once every listener is closed. */
  function Busy(s: State): nat {
    2 * |s.accepting| + 6 * |s.accepted| + 5 * |s.counted| + |s.exiting| + 2 * |s.handling| + |s.closing|
  }

  /** With the conversations still to end. */
  function Rank(s: State): nat {
    Busy(s) + |s.seen - s.ended|
  }

  lemma {:induction false} DrainLoopStep(s: State, t: Step)
    requires LoopsApart(s) && Enabled(s, t) && (t.AcceptError? || t.LoopAdd? || t.LoopDone?)
    ensures Busy(Next(s, t)) == Busy(s) - 1
  {
    match t
    case AcceptError(lid) => Moved(s.accepting, s.exiting, lid);
    case LoopAdd(lid) => Moved(s.accepted, s.counted, lid);
    case LoopDone(lid) => Moved(s.exiting, s.accepting, lid);
  }

  lemma {:induction false} DrainSpawn(s: State, t: Step)
    requires LoopsApart(s) && Enabled(s, t) && t.LoopSpawn? && s.held[t.lid] !in s.handling
    ensures Busy(Next(s, t)) == Busy(s) - 1
  {
    Moved(s.counted, s.accepting, t.lid);
  }

  lemma {:induction false} DrainHandler(s: State, t: Step)
    requires Enabled(s, t) && (t.HandlerClose? || t.HandlerDone?) && s.handling !! s.closing
    ensures Busy(Next(s, t)) == Busy(s) - 1
  {
  }

  lemma {:induction false} DrainEnd(s: State, t: Step)
    requires Enabled(s, t) && EndStep(t) && s.handling <= s.seen
    ensures Rank(Next(s, t)) == Rank(s) - 1
  {
    assert s.seen - Next(s, t).ended == s.seen - s.ended - {t.conn};
  }

  lemma {:induction false} OthersEndNothing(s: State, t: Step)
    requires Enabled(s, t) && !EndStep(t) && !t.Accept?
    ensures Next(s, t).seen == s.seen && Next(s, t).ended == s.ended
  {
  }

  /** What a waiting Stop allows: no Start, no Accept, and it goes on waiting until it returns. */
  lemma {:induction false} WhileStopping(s: State, t: Step)
    requires Inv(s) && s.stopping && Enabled(s, t) && t != StopReturn
    ensures EndStep(t) || t.AcceptError? || t.LoopAdd? || t.LoopSpawn? || t.LoopDone? || t.HandlerClose? || t.HandlerDone?
    ensures Next(s, t).stopping && Next(s, t).timed == s.timed && Next(s, t).seen == s.seen
    ensures s.ended <= Next(s, t).ended && s.closed <= Next(s, t).closed
  {
    hide *;
    InvParts(s);
    StoppedAllows(s, t);
    StoppedKeeps(s, t);
  }

  lemma {:induction false} StoppedAllows(s: State, t: Step)
    requires ListenersKnown(s) && s.stopping && Enabled(s, t) && t != StopReturn
    ensures EndStep(t) || t.AcceptError? || t.LoopAdd? || t.LoopSpawn? || t.LoopDone? || t.HandlerClose? || t.HandlerDone?
  {
    assert s.open == {};
  }

  lemma {:induction false} StoppedKeeps(s: State, t: Step)
    requires Enabled(s, t) && s.stopping
    requires EndStep(t) || t.AcceptError? || t.LoopAdd? || t.LoopSpawn? || t.LoopDone? || t.HandlerClose? || t.HandlerDone?
    ensures Next(s, t).stopping && Next(s, t).timed == s.timed && Next(s, t).seen == s.seen
    ensures s.ended <= Next(s, t).ended && s.closed <= Next(s, t).closed
  {
  }

  /** While a Stop waits, every step but its return brings it one closer to returning. */
  lemma {:induction false} DrainStep(s: State, t: Step)
    requires Inv(s) && s.stopping && Enabled(s, t) && t != StopReturn
    ensures Rank(Next(s, t)) == Rank(s) - 1
  {
    WhileStopping(s, t);
    hide Busy, Next;
    if EndStep(t) {
      DrainEnd(s, t);
    } else {
      OthersEndNothing(s, t);
      if t.HandlerClose? || t.HandlerDone? {
        DrainHandler(s, t);
      } else if t.LoopSpawn? {
        DrainSpawn(s, t);
      } else {
        DrainLoopStep(s, t);
      }
    }
  }

  /** However the goroutines interleave, a Stop is kept waiting by at most Rank(s) steps. */
  lemma {:induction false} StopDrains(s: State, steps: seq<Step>, s': State)
    requires Inv(s) && s.stopping && Run(s, steps, s') && StopReturn !in steps
    ensures |steps| == Rank(s) - Rank(s') && Inv(s') && s'.stopping
    ensures s'.timed == s.timed && s'.seen == s.seen && s.ended <= s'.ended && s.closed <= s'.closed
    decreases |steps|
  {
    hide Rank;
    if steps != [] {
      DrainStep(s, steps[0]);
      WhileStopping(s, steps[0]);
      InvKept(s, steps[0]);
      hide Inv, Next;
      assert forall t :: t in steps[1..] ==> t in steps;
      StopDrains(Next(s, steps[0]), steps[1..], s');
    }
  }

  /** A run in which no peer does anything: only the program's own steps and the clock. */
  ghost predicate Unaided(s: State, steps: seq<Step>, s': State) {
    Run(s, steps, s') && forall t :: t in steps ==> !t.PeerEnds?
  }

  /** Nothing can move but the peers. */
  ghost predicate Stuck(s: State) {
    forall t :: Enabled(s, t) ==> t.PeerEnds?
  }

  /** Every connection has a deadline, or every connection not yet closed has been ended by its peer. */
  predicate WillEnd(s: State) {
    s.timed || s.seen - s.closed <= s.ended
  }

  lemma {:induction false} LoopCanMove(s: State)
    requires LoopsApart(s) && (s.accepting != {} || s.accepted != {} || s.counted != {} || s.exiting != {})
    ensures !Stuck(s)
  {
    if lid :| lid in s.accepting {
      assert Enabled(s, AcceptError(lid));
    } else if lid :| lid in s.accepted {
      assert Enabled(s, LoopAdd(lid));
    } else if lid :| lid in s.counted {
      assert Enabled(s, LoopSpawn(lid));
    } else {
      var lid :| lid in s.exiting;
      assert Enabled(s, LoopDone(lid));
    }
  }

  lemma {:induction false} HandlerCanMove(s: State)
    requires s.closing != {} || (s.handling != {} && s.handling <= s.seen - s.closed && WillEnd(s))
    ensures !Stuck(s)
  {
    if c :| c in s.closing {
      assert Enabled(s, HandlerDone(c));
    } else {
      var c :| c in s.handling;
      if c in s.ended {
        assert Enabled(s, HandlerClose(c));
      } else {
        assert Enabled(s, DeadlinePasses(c));
      }
    }
  }

  lemma {:induction false} CanMove(s: State)
    requires Inv(s) && s.stopping && WillEnd(s)
    ensures !Stuck(s)
  {
    if s.wg == 0 {
      assert Enabled(s, StopReturn);
    } else {
      SomeoneAlive(s);
      hide Stuck, Enabled;
      if s.handling != {} || s.closing != {} {
        HandlerCanMove(s);
      } else {
        LoopCanMove(s);
      }
    }
  }

  lemma {:induction false} SomeoneAlive(s: State)
    requires Owed(s) > 0 && !s.starting.Counted?
    ensures s.accepting != {} || s.accepted != {} || s.counted != {} || s.exiting != {}
            || s.handling != {} || s.closing != {}
  {
  }

  lemma {:induction false} OpenIsOwed(s: State, c: ConnId)
    requires LoopsApart(s) && ConnsAccounted(s) && c in s.seen - s.closed
    ensures Owed(s) > 0
  {
    if c in s.handling {
      HandlerOwed(s, c);
    } else {
      var lid := Holder(s, c);
      hide ConnsAccounted;
      HolderOwed(s, lid);
    }
  }

  lemma {:induction false} Holder(s: State, c: ConnId) returns (lid: ListenerId)
    requires ConnsAccounted(s) && c in s.seen - s.closed && c !in s.handling
    ensures lid in s.held
  {
    assert c in s.seen - s.handling - s.closed;
    lid :| lid in s.held && s.held[lid] == c;
  }

  lemma {:induction false} HandlerOwed(s: State, c: ConnId)
    requires c in s.handling
    ensures Owed(s) > 0
  {
  }

  lemma {:induction false} HolderOwed(s: State, lid: ListenerId)
    requires LoopsApart(s) && lid in s.held
    ensures Owed(s) > 0
  {
    assert lid in s.accepted || lid in s.counted;
  }

  /** A connection nobody will end keeps the counter above zero, and no unaided step changes that. */
  lemma {:induction false} SilentPeerStays(s: State, t: Step)
    requires Inv(s) && s.stopping && !WillEnd(s) && Enabled(s, t) && !t.PeerEnds?
    ensures t != StopReturn && !WillEnd(Next(s, t)) && Next(s, t).stopping
  {
    var c :| c in s.seen - s.closed && c !in s.ended;
    OpenIsOwed(s, c);
    WhileStopping(s, t);
    assert c !in Next(s, t).closed && c !in Next(s, t).ended;
  }

  lemma {:induction false} SilentPeerBlocks(s: State) returns (steps: seq<Step>, s': State)
    requires Inv(s) && s.stopping && !WillEnd(s)
    ensures Unaided(s, steps, s') && StopReturn !in steps && Stuck(s')
    decreases Rank(s)
  {
    if Stuck(s) {
      steps, s' := [], s;
    } else {
      var t :| Enabled(s, t) && !t.PeerEnds?;
      SilentPeerStays(s, t);
      DrainStep(s, t);
      InvKept(s, t);
      var rest;
      rest, s' := SilentPeerBlocks(Next(s, t));
      steps := [t] + rest;
      assert steps[0] == t && steps[1..] == rest;
    }
  }

  /** The Stop waiting in s returns although no peer does anything: no unaided run gets stuck before it. */
  ghost predicate ReturnsUnaided(s: State) {
    forall steps, s' :: Unaided(s, steps, s') && StopReturn !in steps ==> !Stuck(s')
  }

  lemma {:induction false} WillStillEnd(s: State, s': State)
    requires WillEnd(s) && s'.timed == s.timed && s'.seen == s.seen && s.ended <= s'.ended && s.closed <= s'.closed
    ensures WillEnd(s')
  {
  }

  /**
    Main result. From every state in which a Stop waits, it is certain to return without any peer's help -
    every run is finite and none gets stuck - if and only if connections have a deadline or the peers of
    all connections not yet closed have ended them.
   */
  lemma {:induction false} StopReturnsExactly(timed: bool, before: seq<Step>, s: State)
    requires Run(Initial(timed), before, s) && s.stopping
    ensures ReturnsUnaided(s) <==> WillEnd(s)
  {
    InvAlong(Initial(timed), before, s);
    hide Inv, Run, Stuck, WillEnd, Rank;
    if WillEnd(s) {
      forall steps, s' | Unaided(s, steps, s') && StopReturn !in steps
        ensures !Stuck(s')
      {
        StopDrains(s, steps, s');
        WillStillEnd(s, s');
        CanMove(s');
      }
    } else {
      var steps, s' := SilentPeerBlocks(s);
    }
  }

  lemma {:induction false} RunNone(s: State)
    ensures Run(s, [], s)
  {
  }

  lemma {:induction false} RunOne(s: State, t: Step, rest: seq<Step>, s': State)
    requires Enabled(s, t) && Run(Next(s, t), rest, s')
    ensures Run(s, [t] + rest, s')
  {
    assert ([t] + rest)[1..] == rest;
    hide Next, Enabled;
  }

  lemma {:induction false} RunConcat(s: State, a: seq<Step>, m: State, b: seq<Step>, s': State)
    requires Run(s, a, m) && Run(m, b, s')
    ensures Run(s, a + b, s')
    decreases |a|
  {
    hide Next, Enabled;
    if a == [] {
      assert a + b == b;
    } else {
      RunConcat(Next(s, a[0]), a[1..], m, b, s');
      assert (a + b)[1..] == a[1..] + b;
    }
  }

  /** One listener, one connection with its handler, no deadline. */
  const SERVING := State(false, true, NotStarting, false, {0}, {0}, {0}, {0}, {}, {}, map[], {}, {0}, {}, {0}, {}, {}, 2)

  /** One listener, nobody connected. */
  const LISTENING := State(false, true, NotStarting, false, {0}, {0}, {0}, {0}, {}, {}, map[], {}, {}, {}, {}, {}, {}, 1)

  lemma {:induction false} ListeningReached() returns (steps: seq<Step>, s: State)
    ensures Run(Initial(false), steps, s) && s == LISTENING
  {
    var s1 := Next(Initial(false), StartBegin);
    var s2 := Next(s1, StartBind(0));
    var s3 := Next(s2, StartAdd);
    var s4 := Next(s3, StartSpawn);
    var s5 := Next(s4, StartReturn);
    s, steps := s5, [];
    assert s == LISTENING;
    hide Run;
    RunNone(s);
    RunOne(s4, StartReturn, steps, s);
    steps := [StartReturn] + steps;
    RunOne(s3, StartSpawn, steps, s);
    steps := [StartSpawn] + steps;
    RunOne(s2, StartAdd, steps, s);
    steps := [StartAdd] + steps;
    RunOne(s1, StartBind(0), steps, s);
    steps := [StartBind(0)] + steps;
    RunOne(Initial(false), StartBegin, steps, s);
    steps := [StartBegin] + steps;
  }

  lemma {:induction false} ServingReached() returns (steps: seq<Step>, s: State)
    ensures Run(LISTENING, steps, s) && s == SERVING
  {
    var s1 := Next(LISTENING, Accept(0, 0));
    var s2 := Next(s1, LoopAdd(0));
    var s3 := Next(s2, LoopSpawn(0));
    s, steps := s3, [];
    assert s == SERVING;
    hide Run;
    RunNone(s);
    RunOne(s2, LoopSpawn(0), steps, s);
    steps := [LoopSpawn(0)] + steps;
    RunOne(s1, LoopAdd(0), steps, s);
    steps := [LoopAdd(0)] + steps;
    RunOne(LISTENING, Accept(0, 0), steps, s);
    steps := [Accept(0, 0)] + steps;
  }

  /** Stopping then, with the peer silent, leaves the Stop waiting and nothing else to move. */
  lemma {:induction false} StopThenStuck() returns (steps: seq<Step>, s: State)
    ensures Run(SERVING, steps, s) && s.stopping && Stuck(s)
  {
    var s1 := Next(SERVING, StopBegin);
    var s2 := Next(s1, AcceptError(0));
    var s3 := Next(s2, LoopDone(0));
    s, steps := s3, [];
    RunOne(s2, LoopDone(0), steps, s);
    steps := [LoopDone(0)] + steps;
    RunOne(s1, AcceptError(0), steps, s);
    steps := [AcceptError(0)] + steps;
    RunOne(SERVING, StopBegin, steps, s);
    steps := [StopBegin] + steps;
  }

  /** One silent peer: without a deadline, a Stop can wait forever. */
  lemma {:induction false} SilentPeerExample() returns (steps: seq<Step>, s: State)
    ensures Run(Initial(false), steps, s) && s.stopping && Stuck(s)
  {
    hide *;
    var a, l := ListeningReached();
    var b, m := ServingReached();
    var c;
    c, s := StopThenStuck();
    RunConcat(LISTENING, b, m, c, s);
    RunConcat(Initial(false), a, l, b + c, s);
    steps := a + (b + c);
  }
}
