// The cluster hub: a shared-secret check in front of node registration and event ingestion.
module Cluster {
  import opened Basics
  import opened Events
  import opened Text

  /** A request as the handlers see it; the JSON decoders' verdicts on its body are given. */
  datatype Request = Request(
    path: string,
    verb: string,
    authorization: string,
    tokenHeader: string,
    asJoin: Option<(string, string)>,
    asEvent: Option<Event>,
    now: Time)

  datatype Node = Node(id: string, address: string, lastSeen: Time, active: bool)

  datatype State = State(nodes: map<string, Node>, queue: seq<Event>)

  const JOIN := "/api/v1/cluster/join"
  const INGEST := "/api/v1/cluster/ingest"
  const NODES := "/api/v1/cluster/nodes"
  const HEALTH := "/healthz"
  const READY := "/readyz"

  const BEARER := "Bearer "

  function ExtractToken(r: Request): string {
    if r.authorization != "" && |r.authorization| >= |BEARER|
       && ToUpper(r.authorization[..|BEARER|]) == ToUpper(BEARER)
    then TrimSpace(r.authorization[|BEARER|..])
    else TrimSpace(r.tokenHeader)
  }

  predicate Protected(r: Request) {
    r.path == JOIN || r.path == INGEST || r.path == NODES
  }

  /** An empty hub token switches the check off. */
  predicate Admitted(token: string, r: Request) {
    token == "" || (ExtractToken(r) != "" && ExtractToken(r) == token)
  }

  /** The new state and the status code of one request. */
  function Serve(token: string, capacity: nat, s: State, r: Request): (State, int) {
    if r.path == HEALTH || r.path == READY then (s, 200)
    else if !Protected(r) then (s, 404)
    else if !Admitted(token, r) then (s, 401)
    else if r.path == NODES then (s, if r.verb != "GET" then 405 else 200)
    else if r.verb != "POST" then (s, 405)
    else if r.path == JOIN then
      if r.asJoin.None? then (s, 400)
      else
        var id, address := TrimSpace(r.asJoin.value.0), TrimSpace(r.asJoin.value.1);
        if id == "" || address == "" then (s, 400)
        else (s.(nodes := s.nodes[id := Node(id, address, r.now, true)]), 200)
    else if r.asEvent.None? || TrimSpace(r.asEvent.value.id) == "" then (s, 400)
    else if |s.queue| < capacity then (s.(queue := s.queue + [r.asEvent.value]), 202)
    else (s, 503)
  }

  class Hub {
    const token: string
    const capacity: nat
    var nodes: map<string, Node>
    var queue: seq<Event>

    function View(): State
      reads this
    {
      State(nodes, queue)
    }

    constructor (token: string, capacity: nat)
      ensures this.token == TrimSpace(token) && this.capacity == capacity && View() == State(map[], [])
    {
      this.token, this.capacity := TrimSpace(token), capacity;
      nodes, queue := map[], [];
    }

    method RegisterNode(id: string, address: string, now: Time)
      modifies this`nodes
      ensures nodes == old(nodes)[id := Node(id, address, now, true)]
    {
      nodes := nodes[id := Node(id, address, now, true)];
    }

    method JoinHandler(r: Request) returns (status: int)
      requires r.path == JOIN && Admitted(token, r)
      modifies this`nodes
      ensures (View(), status) == Serve(token, capacity, old(View()), r)
    {
      if r.verb != "POST" {
        return 405;
      }
      if r.asJoin.None? {
        return 400;
      }
      var id, address := TrimSpace(r.asJoin.value.0), TrimSpace(r.asJoin.value.1);
      if id == "" || address == "" {
        return 400;
      }
      RegisterNode(id, address, r.now);
      status := 200;
    }

    method IngestHandler(r: Request) returns (status: int)
      requires r.path == INGEST && Admitted(token, r)
      modifies this`queue
      ensures (View(), status) == Serve(token, capacity, old(View()), r)
    {
      if r.verb != "POST" {
        return 405;
      }
      if r.asEvent.None? || TrimSpace(r.asEvent.value.id) == "" {
        return 400;
      }
      if |queue| < capacity {
        queue := queue + [r.asEvent.value];
        return 202;
      }
      status := 503;
    }

    method ServeHTTP(r: Request) returns (status: int)
      modifies this
      ensures (View(), status) == Serve(token, capacity, old(View()), r)
    {
      if r.path == HEALTH || r.path == READY {
        return 200;
      }
      if r.path != JOIN && r.path != INGEST && r.path != NODES {
        return 404;
      }
      if token != "" {
        var got := ExtractToken(r);
        if got == "" || got != token {
          return 401;
        }
      }
      if r.path == JOIN {
        status := JoinHandler(r);
      } else if r.path == INGEST {
        status := IngestHandler(r);
      } else {
        status := if r.verb != "GET" then 405 else 200;
      }
    }
  }

  // ---------- runs of the hub ----------

  /** The hub's life: requests, and the consumer taking the oldest queued event. */
  datatype Op = Handle(request: Request) | Take

  function Apply(token: string, capacity: nat, s: State, op: Op): State {
    match op
    case Handle(r) => Serve(token, capacity, s, r).0
    case Take => if s.queue == [] then s else s.(queue := s.queue[1..])
  }

  function RunHub(token: string, capacity: nat, s: State, ops: seq<Op>): State
    decreases |ops|
  {
    if ops == [] then s else RunHub(token, capacity, Apply(token, capacity, s, ops[0]), ops[1..])
  }

  // ---------- who is let in, by the request's own headers ----------

  function Lower(c: char): char {
    if 'A' <= c <= 'Z' then c - 'A' + 'a' else c
  }

  /** The Authorization header begins with "bearer " in any case. */
  predicate SaysBearer(r: Request) {
    |r.authorization| >= 7 && forall i :: 0 <= i < 7 ==> Lower(r.authorization[i]) == "bearer "[i]
  }

  /** The request carries the secret, behind "bearer " or else in the token header, white space around it aside. */
  predicate BearsToken(token: string, r: Request) {
    if SaysBearer(r) then TrimSpace(r.authorization[7..]) == token else TrimSpace(r.tokenHeader) == token
  }

  /** Without a secret of its own the hub lets every request in. */
  predicate Welcome(token: string, r: Request) {
    token == "" || BearsToken(token, r)
  }

  lemma {:induction false} BearerFolds(s: string)
    requires |s| == 7
    ensures ToUpper(s) == ToUpper(BEARER) <==> forall i :: 0 <= i < 7 ==> Lower(s[i]) == "bearer "[i]
  {
    var u, v, w := ToUpper(s), ToUpper(BEARER), "bearer ";
    assert |BEARER| == 7 && |u| == |v| == 7;
    assert v[0] == 'B' && v[1] == 'E' && v[2] == 'A' && v[3] == 'R' && v[4] == 'E' && v[5] == 'R' && v[6] == ' ';
    assert w[0] == 'b' && w[1] == 'e' && w[2] == 'a' && w[3] == 'r' && w[4] == 'e' && w[5] == 'r' && w[6] == ' ';
    forall i | 0 <= i < 7
      ensures u[i] == v[i] <==> Lower(s[i]) == w[i]
    {
    }
    if forall i :: 0 <= i < 7 ==> Lower(s[i]) == w[i] {
      assert forall i :: 0 <= i < 7 ==> u[i] == v[i];
    }
    if u == v {
      assert forall i :: 0 <= i < 7 ==> u[i] == v[i];
    }
  }

  lemma {:induction false} ExtractExactly(r: Request)
    ensures ExtractToken(r) == if SaysBearer(r) then TrimSpace(r.authorization[7..]) else TrimSpace(r.tokenHeader)
  {
    assert |BEARER| == 7;
    if |r.authorization| >= 7 {
      var s := r.authorization[..7];
      BearerFolds(s);
      assert forall i :: 0 <= i < 7 ==> s[i] == r.authorization[i];
    }
    hide TrimSpace, ToUpper;
  }

  lemma {:induction false} AdmittedExactly(token: string, r: Request)
    ensures Admitted(token, r) <==> Welcome(token, r)
  {
    ExtractExactly(r);
    hide TrimSpace, ExtractToken, SaysBearer;
  }

  lemma {:induction false} RoutesDiffer()
    ensures JOIN == "/api/v1/cluster/join" && INGEST == "/api/v1/cluster/ingest" && NODES == "/api/v1/cluster/nodes"
    ensures HEALTH == "/healthz" && READY == "/readyz"
    ensures JOIN != INGEST && JOIN != NODES && INGEST != NODES && HEALTH != READY
    ensures HEALTH != JOIN && HEALTH != INGEST && HEALTH != NODES && READY != JOIN && READY != INGEST && READY != NODES
  {
    assert |HEALTH| == 8 && |READY| == 7 && |JOIN| == 20 && |INGEST| == 22 && |NODES| == 21;
  }

  /** The routes behind the secret. */
  predicate Guarded(r: Request) {
    || r.path == "/api/v1/cluster/join" || r.path == "/api/v1/cluster/ingest" || r.path == "/api/v1/cluster/nodes"
  }

  /**
    Main result. A guarded request is refused with 401 exactly when the hub has a secret and the request's
    own headers do not carry it; a request without it changes nothing, whatever its route.
   */
  lemma {:induction false} RefusedExactly(token: string, capacity: nat, s: State, r: Request)
    ensures Guarded(r) ==> (Serve(token, capacity, s, r).1 == 401 <==> !Welcome(token, r))
    ensures !Welcome(token, r) ==> Serve(token, capacity, s, r).0 == s
  {
    AdmittedExactly(token, r);
    RoutesDiffer();
    hide Admitted, Welcome, TrimSpace;
  }

  /** A request with the secret in neither header changes nothing, and is refused with 401 on guarded routes. */
  lemma {:induction false} RefusedChangesNothing(token: string, capacity: nat, s: State, r: Request)
    requires token != "" && TrimSpace(r.tokenHeader) != token
    requires |r.authorization| >= 7 ==> TrimSpace(r.authorization[7..]) != token
    ensures Serve(token, capacity, s, r).0 == s
    ensures Guarded(r) ==> Serve(token, capacity, s, r).1 == 401
  {
    RefusedExactly(token, capacity, s, r);
    hide Serve, TrimSpace, Guarded;
  }

  /** A run without the requests that do not carry the secret. */
  function OnlyWelcome(token: string, ops: seq<Op>): seq<Op> {
    if ops == [] then []
    else (if ops[0].Handle? && !Welcome(token, ops[0].request) then [] else [ops[0]])
         + OnlyWelcome(token, ops[1..])
  }

  /**
    Main result. Requests with a missing or wrong token leave no trace: deleting them from any run, in
    which the queue may also be drained at any point, gives the same nodes and the same queue.
   */
  lemma {:induction false} UnauthorisedInvisible(token: string, capacity: nat, s: State, ops: seq<Op>)
    ensures RunHub(token, capacity, s, OnlyWelcome(token, ops)) == RunHub(token, capacity, s, ops)
    decreases |ops|
  {
    if ops != [] {
      var op, rest := ops[0], OnlyWelcome(token, ops[1..]);
      UnauthorisedInvisible(token, capacity, Apply(token, capacity, s, op), ops[1..]);
      if op.Handle? && !Welcome(token, op.request) {
        RefusedExactly(token, capacity, s, op.request);
        assert [] + rest == rest;
      } else {
        assert ([op] + rest)[1..] == rest;
      }
      hide Serve, Welcome, Guarded;
    }
  }

  /** The health routes answer anybody and change nothing; unknown routes are not found. */
  lemma {:induction false} PublicRoutes(token: string, capacity: nat, s: State, r: Request)
    ensures r.path == "/healthz" || r.path == "/readyz" ==> Serve(token, capacity, s, r) == (s, 200)
    ensures r.path != "/healthz" && r.path != "/readyz" && !Guarded(r) ==> Serve(token, capacity, s, r) == (s, 404)
  {
    RoutesDiffer();
    hide Admitted, TrimSpace;
  }

  /** Joining succeeds exactly for a welcome POST naming an id and an address, and files that node and no other. */
  lemma {:induction false} JoinExactly(token: string, capacity: nat, s: State, r: Request)
    requires r.path == "/api/v1/cluster/join"
    ensures var (s', status) := Serve(token, capacity, s, r);
      var joins := Welcome(token, r) && r.verb == "POST" && r.asJoin.Some?
                   && Fields(r.asJoin.value.0) != [] && Fields(r.asJoin.value.1) != [];
      && (status == 200 <==> joins) && s'.queue == s.queue
      && s'.nodes == (if joins
                      then s.nodes[TrimSpace(r.asJoin.value.0) :=
                                     Node(TrimSpace(r.asJoin.value.0), TrimSpace(r.asJoin.value.1), r.now, true)]
                      else s.nodes)
  {
    AdmittedExactly(token, r);
    RoutesDiffer();
    if r.asJoin.Some? {
      FieldsOfTrim(r.asJoin.value.0);
      FieldsOfTrim(r.asJoin.value.1);
    }
    hide Admitted, Welcome, TrimSpace, Fields;
  }

  /** An event is taken exactly from a welcome POST with a non-blank id while there is room; without room it is 503. */
  lemma {:induction false} IngestExactly(token: string, capacity: nat, s: State, r: Request)
    requires r.path == "/api/v1/cluster/ingest"
    ensures var (s', status) := Serve(token, capacity, s, r);
      var offered := Welcome(token, r) && r.verb == "POST" && r.asEvent.Some? && Fields(r.asEvent.value.id) != [];
      && (status == 202 <==> offered && |s.queue| < capacity)
      && (status == 503 <==> offered && |s.queue| >= capacity)
      && s' == if status == 202 then s.(queue := s.queue + [r.asEvent.value]) else s
  {
    AdmittedExactly(token, r);
    RoutesDiffer();
    if r.asEvent.Some? {
      FieldsOfTrim(r.asEvent.value.id);
    }
    hide Admitted, Welcome, TrimSpace, Fields;
  }

  /** 202 is answered exactly when the request's event was appended to the queue. */
  lemma {:induction false} AcceptedIffQueued(token: string, capacity: nat, s: State, r: Request)
    ensures var (s', status) := Serve(token, capacity, s, r);
      && (status == 202 <==> |s'.queue| == |s.queue| + 1)
      && (status == 202 ==> r.asEvent.Some? && s'.queue == s.queue + [r.asEvent.value] && |s.queue| < capacity)
      && (status != 202 ==> s'.queue == s.queue)
  {
    hide ExtractToken, TrimSpace;
  }

  /** The event a request is answered 202 for. */
  function Gain(token: string, capacity: nat, s: State, op: Op): seq<Event> {
    if op.Handle? && Serve(token, capacity, s, op.request).1 == 202 && op.request.asEvent.Some?
    then [op.request.asEvent.value] else []
  }

  /** The event the consumer takes. */
  function Loss(s: State, op: Op): seq<Event> {
    if op.Take? && s.queue != [] then [s.queue[0]] else []
  }

  /** The events of the requests a run answers with 202, in order. */
  function Accepted(token: string, capacity: nat, s: State, ops: seq<Op>): seq<Event>
    decreases |ops|
  {
    if ops == [] then []
    else Gain(token, capacity, s, ops[0]) + Accepted(token, capacity, Apply(token, capacity, s, ops[0]), ops[1..])
  }

  /** The events the consumer takes over a run, in order. */
  function Taken(token: string, capacity: nat, s: State, ops: seq<Op>): seq<Event>
    decreases |ops|
  {
    if ops == [] then []
    else Loss(s, ops[0]) + Taken(token, capacity, Apply(token, capacity, s, ops[0]), ops[1..])
  }

  lemma {:induction false} OneOp(token: string, capacity: nat, s: State, op: Op)
    ensures s.queue + Gain(token, capacity, s, op) == Loss(s, op) + Apply(token, capacity, s, op).queue
    ensures |s.queue| <= capacity ==> |Apply(token, capacity, s, op).queue| <= capacity
  {
    if op.Handle? {
      AcceptedIffQueued(token, capacity, s, op.request);
      hide Serve;
    }
  }

  lemma {:induction false} QueueAccounted(token: string, capacity: nat, s: State, ops: seq<Op>)
    ensures s.queue + Accepted(token, capacity, s, ops)
            == Taken(token, capacity, s, ops) + RunHub(token, capacity, s, ops).queue
    ensures |s.queue| <= capacity ==> |RunHub(token, capacity, s, ops).queue| <= capacity
    decreases |ops|
  {
    if ops != [] {
      var s' := Apply(token, capacity, s, ops[0]);
      var gain, loss := Gain(token, capacity, s, ops[0]), Loss(s, ops[0]);
      OneOp(token, capacity, s, ops[0]);
      QueueAccounted(token, capacity, s', ops[1..]);
      hide Gain, Loss, Apply;
      ConcatAssociative(s.queue, gain, Accepted(token, capacity, s', ops[1..]));
      ConcatAssociative(loss, s'.queue, Accepted(token, capacity, s', ops[1..]));
      ConcatAssociative(loss, Taken(token, capacity, s', ops[1..]), RunHub(token, capacity, s', ops[1..]).queue);
    }
  }

  /**
    Main result. Over any life of a hub, the events taken from the queue followed by those still in it
    are exactly the events of the requests answered 202, in order, and the queue never overflows.
   */
  lemma {:induction false} AcceptedEventsKept(token: string, capacity: nat, ops: seq<Op>)
    ensures var empty := State(map[], []); var end := RunHub(token, capacity, empty, ops);
      && Taken(token, capacity, empty, ops) + end.queue == Accepted(token, capacity, empty, ops)
      && |end.queue| <= capacity
  {
    var empty := State(map[], []);
    QueueAccounted(token, capacity, empty, ops);
    assert [] + Accepted(token, capacity, empty, ops) == Accepted(token, capacity, empty, ops);
  }

  /** The node list is for welcome GETs. */
  lemma {:induction false} NodesExactly(token: string, capacity: nat, s: State, r: Request)
    requires r.path == "/api/v1/cluster/nodes"
    ensures Serve(token, capacity, s, r) ==
      (s, if !Welcome(token, r) then 401 else if r.verb == "GET" then 200 else 405)
  {
    AdmittedExactly(token, r);
    RoutesDiffer();
    hide Admitted, Welcome, TrimSpace;
  }
}
