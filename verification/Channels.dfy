// Bounded event channels: producers send without blocking and drop when the buffer is full,
// one consumer takes events in order until it is cancelled.
module Channels {

  datatype Step<T> = Emit(x: T) | Consume | Cancel

  /** levels records how full the buffer was at each emission. */
  datatype State<T> = State(
    emitted: seq<T>, levels: seq<nat>, processed: seq<T>, buffer: seq<T>, dropped: seq<T>, consuming: bool)

  function Initial<T>(): State<T> {
    State([], [], [], [], [], true)
  }

  predicate Enabled<T>(s: State<T>, t: Step<T>) {
    t.Consume? ==> s.consuming && s.buffer != []
  }

  function Next<T>(capacity: nat, s: State<T>, t: Step<T>): State<T>
    requires Enabled(s, t)
  {
    match t
    case Emit(x) =>
      var sent := s.(emitted := s.emitted + [x], levels := s.levels + [|s.buffer|]);
      if |s.buffer| < capacity then sent.(buffer := s.buffer + [x]) else sent.(dropped := s.dropped + [x])
    case Consume => s.(processed := s.processed + [s.buffer[0]], buffer := s.buffer[1..])
    case Cancel => s.(consuming := false)
  }

  ghost predicate Run<T>(capacity: nat, s: State<T>, steps: seq<Step<T>>, s': State<T>)
    decreases |steps|
  {
    if steps == [] then s == s'
    else Enabled(s, steps[0]) && Run(capacity, Next(capacity, s, steps[0]), steps[1..], s')
  }

  /** The emitted events that found room, or those that did not, in emission order. */
  function Select<T>(emitted: seq<T>, levels: seq<nat>, capacity: nat, room: bool): seq<T>
    requires |emitted| == |levels|
  {
    if emitted == [] then []
    else
      var last := |emitted| - 1;
      var earlier := Select(emitted[..last], levels[..last], capacity, room);
      if (levels[last] < capacity) == room then earlier + [emitted[last]] else earlier
  }

  /** Every emitted event is processed, buffered or dropped, and which one the level decided. */
  ghost predicate Accounted<T>(capacity: nat, s: State<T>) {
    && |s.emitted| == |s.levels| && |s.buffer| <= capacity
    && s.processed + s.buffer == Select(s.emitted, s.levels, capacity, true)
    && s.dropped == Select(s.emitted, s.levels, capacity, false)
  }

  lemma {:induction false} SelectAppend<T>(xs: seq<T>, ns: seq<nat>, x: T, n: nat, capacity: nat, room: bool)
    requires |xs| == |ns|
    ensures var earlier := Select(xs, ns, capacity, room);
      Select(xs + [x], ns + [n], capacity, room) == if (n < capacity) == room then earlier + [x] else earlier
  {
    assert (xs + [x])[..|xs|] == xs && (ns + [n])[..|ns|] == ns;
  }

  lemma {:induction false} AccountedKept<T>(capacity: nat, s: State<T>, t: Step<T>)
    requires Accounted(capacity, s) && Enabled(s, t)
    ensures Accounted(capacity, Next(capacity, s, t))
  {
    match t
    case Emit(x) =>
      SelectAppend(s.emitted, s.levels, x, |s.buffer|, capacity, true);
      SelectAppend(s.emitted, s.levels, x, |s.buffer|, capacity, false);
      assert s.processed + (s.buffer + [x]) == s.processed + s.buffer + [x];
    case Consume =>
      assert s.processed + [s.buffer[0]] + s.buffer[1..] == s.processed + s.buffer;
    case Cancel =>
  }

  lemma {:induction false} AccountedAlong<T>(capacity: nat, s: State<T>, steps: seq<Step<T>>, s': State<T>)
    requires Accounted(capacity, s) && Run(capacity, s, steps, s')
    ensures Accounted(capacity, s')
    decreases |steps|
  {
    if steps != [] {
      AccountedKept(capacity, s, steps[0]);
      AccountedAlong(capacity, Next(capacity, s, steps[0]), steps[1..], s');
    }
  }

  lemma {:induction false} SelectCounts<T>(xs: seq<T>, ns: seq<nat>, capacity: nat)
    requires |xs| == |ns|
    ensures var kept, lost := Select(xs, ns, capacity, true), Select(xs, ns, capacity, false);
      && |kept| + |lost| == |xs|
      && multiset(kept) + multiset(lost) == multiset(xs)
      && (lost == [] <==> kept == xs)
  {
    if xs != [] {
      var last := |xs| - 1;
      SelectCounts(xs[..last], ns[..last], capacity);
      assert xs == xs[..last] + [xs[last]];
    }
  }

  /**
    Main result. In every interleaving of producers, consumer and cancellation the emitted events are
    partitioned, as a multiset, into processed, buffered and dropped; processed followed by buffered are
    the emissions that found room, in emission order; the dropped are those that found the buffer full;
    and nothing is lost exactly when nothing was dropped.
   */
  lemma {:induction false} EventsAccountedFor<T>(capacity: nat, steps: seq<Step<T>>, s: State<T>)
    requires Run(capacity, Initial(), steps, s)
    ensures |s.emitted| == |s.levels| && |s.buffer| <= capacity
    ensures s.processed + s.buffer == Select(s.emitted, s.levels, capacity, true)
    ensures s.dropped == Select(s.emitted, s.levels, capacity, false)
    ensures multiset(s.processed) + multiset(s.buffer) + multiset(s.dropped) == multiset(s.emitted)
    ensures s.dropped == [] <==> s.processed + s.buffer == s.emitted
  {
    AccountedAlong(capacity, Initial(), steps, s);
    SelectCounts(s.emitted, s.levels, capacity);
    assert multiset(s.processed + s.buffer) == multiset(s.processed) + multiset(s.buffer);
  }
}
