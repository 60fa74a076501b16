// The in-process bus: handlers run stage by stage in registration order, stopping at the first error.
module Pipeline {
  import opened Basics

  type Stage = string

  const SCORE: Stage := "score"
  const CORRELATE: Stage := "correlate"
  const PLAYBOOK: Stage := "playbook"
  const SINK: Stage := "sink"
  const STAGE_ORDER: seq<Stage> := [SCORE, CORRELATE, PLAYBOOK, SINK]

  /** A handler sees and changes the event and the outside world (together S), and may fail. */
  type Handler<!S> = S -> (S, Option<string>)

  type Registry<!S> = map<Stage, seq<Handler<S>>>

  datatype Result<S> = Result(event: S, stagesRun: seq<Stage>, errors: seq<string>)

  function HandlersOf<S>(r: Registry<S>, stage: Stage): seq<Handler<S>> {
    if stage in r then r[stage] else []
  }

  /** The handlers of the first n stages, one list after the other. */
  function InOrder<S>(r: Registry<S>, order: seq<Stage>, n: nat): seq<Handler<S>>
    requires n <= |order|
  {
    if n == 0 then [] else InOrder(r, order, n - 1) + HandlersOf(r, order[n - 1])
  }

  /** The state once the first k handlers of a list have run. */
  function After<S>(hs: seq<Handler<S>>, s: S, k: nat): S
    requires k <= |hs|
  {
    if k == 0 then s else hs[k - 1](After(hs, s, k - 1)).0
  }

  function Failure<S>(hs: seq<Handler<S>>, s: S, k: nat): Option<string>
    requires k < |hs|
  {
    hs[k](After(hs, s, k)).1
  }

  /** The first n handlers succeed. */
  ghost predicate Succeed<S>(hs: seq<Handler<S>>, s: S, n: nat)
    requires n <= |hs|
  {
    forall k :: 0 <= k < n ==> Failure(hs, s, k) == None
  }

  /** ran handlers ran: all of them, or all up to and including the first that fails. */
  ghost predicate StopsAt<S>(hs: seq<Handler<S>>, s: S, ran: nat) {
    || (ran == |hs| && Succeed(hs, s, ran))
    || (0 < ran <= |hs| && Succeed(hs, s, ran - 1) && Failure(hs, s, ran - 1).Some?)
  }

  lemma {:induction false} NoneRan<S>(hs: seq<Handler<S>>, s: S)
    ensures After(hs, s, 0) == s && Succeed(hs, s, 0) && hs[..0] == []
  {
  }

  lemma {:induction false} OneRan<S>(hs: seq<Handler<S>>, s: S, j: nat)
    requires j < |hs|
    ensures hs[j](After(hs, s, j)) == (After(hs, s, j + 1), Failure(hs, s, j))
    ensures Succeed(hs, s, j + 1) <==> Succeed(hs, s, j) && Failure(hs, s, j) == None
    ensures hs[..j + 1] == hs[..j] + [hs[j]]
  {
    assert After(hs, s, j + 1) == hs[j](After(hs, s, j)).0;
    assert Failure(hs, s, j) == hs[j](After(hs, s, j)).1;
    hide After, Failure;
  }

  lemma {:induction false} AfterPrefix<S>(a: seq<Handler<S>>, b: seq<Handler<S>>, s: S, k: nat)
    requires k <= |a|
    ensures After(a + b, s, k) == After(a, s, k)
  {
    if k > 0 {
      AfterPrefix(a, b, s, k - 1);
    }
  }

  lemma {:induction false} AfterConcat<S>(a: seq<Handler<S>>, b: seq<Handler<S>>, s: S, k: nat)
    requires k <= |b|
    ensures After(a + b, s, |a| + k) == After(b, After(a, s, |a|), k)
  {
    if k == 0 {
      AfterPrefix(a, b, s, |a|);
    } else {
      AfterConcat(a, b, s, k - 1);
    }
  }

  lemma {:induction false} SucceedConcat<S>(a: seq<Handler<S>>, b: seq<Handler<S>>, s: S, m: nat)
    requires Succeed(a, s, |a|) && m <= |b|
    ensures Succeed(a + b, s, |a| + m) <==> Succeed(b, After(a, s, |a|), m)
    ensures m < |b| ==> Failure(a + b, s, |a| + m) == Failure(b, After(a, s, |a|), m)
  {
    var s' := After(a, s, |a|);
    forall k | 0 <= k < |a|
      ensures Failure(a + b, s, k) == None
    {
      AfterPrefix(a, b, s, k);
      assert Failure(a, s, k) == None;
    }
    forall k | 0 <= k < |b|
      ensures Failure(a + b, s, |a| + k) == Failure(b, s', k)
    {
      AfterConcat(a, b, s, k);
    }
    hide Failure, After;
    assert forall k :: |a| <= k < |a| + m ==> Failure(a + b, s, k) == Failure(b, s', k - |a|) by {
      forall k | |a| <= k < |a| + m
        ensures Failure(a + b, s, k) == Failure(b, s', k - |a|)
      {
        assert Failure(a + b, s, |a| + (k - |a|)) == Failure(b, s', k - |a|);
      }
    }
    if Succeed(a + b, s, |a| + m) {
      forall k | 0 <= k < m
        ensures Failure(b, s', k) == None
      {
        assert Failure(a + b, s, |a| + k) == None;
      }
    }
  }

  /** A longer list stops where its prefix does, if the prefix fails. */
  lemma {:induction false} StopsInPrefix<S>(a: seq<Handler<S>>, b: seq<Handler<S>>, s: S, ran: nat)
    requires 0 < ran <= |a| && Succeed(a, s, ran - 1) && Failure(a, s, ran - 1).Some?
    ensures StopsAt(a + b, s, ran) && !Succeed(a + b, s, ran) && After(a + b, s, ran) == After(a, s, ran)
    ensures Failure(a + b, s, ran - 1) == Failure(a, s, ran - 1)
  {
    AfterPrefix(a, b, s, ran);
    forall k | 0 <= k < ran
      ensures Failure(a + b, s, k) == Failure(a, s, k)
    {
      AfterPrefix(a, b, s, k);
    }
    hide Failure, After;
  }

  /** After a list that succeeded, the next list stops where it would have stopped alone. */
  lemma {:induction false} StopsInSuffix<S>(a: seq<Handler<S>>, b: seq<Handler<S>>, s: S, ran: nat)
    requires Succeed(a, s, |a|) && StopsAt(b, After(a, s, |a|), ran)
    ensures After(a + b, s, |a| + ran) == After(b, After(a, s, |a|), ran)
    ensures Succeed(a + b, s, |a| + ran) <==> Succeed(b, After(a, s, |a|), ran)
    ensures ran > 0 ==> (Succeed(a + b, s, |a| + ran - 1) <==> Succeed(b, After(a, s, |a|), ran - 1))
    ensures ran > 0 ==> Failure(a + b, s, |a| + ran - 1) == Failure(b, After(a, s, |a|), ran - 1)
  {
    AfterConcat(a, b, s, ran);
    SucceedConcat(a, b, s, ran);
    if ran > 0 {
      SucceedConcat(a, b, s, ran - 1);
    }
  }

  /** The order of the first n stages is a prefix of the order of all. */
  lemma {:induction false} InOrderPrefix<S>(r: Registry<S>, order: seq<Stage>, n: nat, m: nat)
    requires n <= m <= |order|
    ensures InOrder(r, order, n) <= InOrder(r, order, m)
  {
    if n < m {
      InOrderPrefix(r, order, n, m - 1);
    }
  }

  /** A failed run: handler number ran - 1, which belongs to stage number n, failed. */
  ghost predicate FailedIn<S>(r: Registry<S>, order: seq<Stage>, s: S, res: Result<S>, ran: nat, n: nat)
    requires n < |order|
  {
    var hs := InOrder(r, order, |order|);
    && |InOrder(r, order, n)| < ran <= |hs| && ran <= |InOrder(r, order, n + 1)|
    && res.stagesRun == order[..n + 1]
    && Failure(hs, s, ran - 1).Some?
    && res.errors == [order[n] + ": " + Failure(hs, s, ran - 1).value]
  }

  /**
    What one Process call must report: the handlers of all stages, in stage order then registration
    order, folded over the event up to and including the first failure; the stages entered are a prefix
    of the stage order, and at most one error is recorded.
   */
  ghost predicate Correct<S>(r: Registry<S>, order: seq<Stage>, s: S, res: Result<S>, ran: nat) {
    var hs := InOrder(r, order, |order|);
    && StopsAt(hs, s, ran)
    && res.event == After(hs, s, ran)
    && if Succeed(hs, s, ran) then res.errors == [] && res.stagesRun == order
       else exists n: nat :: n < |order| && FailedIn(r, order, s, res, ran, n)
  }

  lemma {:induction false} FailureIsCorrect<S>(r: Registry<S>, order: seq<Stage>, s: S, res: Result<S>, n: nat, k: nat)
    requires n < |order|
    requires var a, own := InOrder(r, order, n), HandlersOf(r, order[n]);
      && Succeed(a, s, |a|) && 0 < k <= |own|
      && Succeed(own, After(a, s, |a|), k - 1) && Failure(own, After(a, s, |a|), k - 1).Some?
      && res == Result(After(own, After(a, s, |a|), k), order[..n + 1],
                       [order[n] + ": " + Failure(own, After(a, s, |a|), k - 1).value])
    ensures Correct(r, order, s, res, |InOrder(r, order, n)| + k)
    ensures InOrder(r, order, |order|)[..|InOrder(r, order, n)| + k] == InOrder(r, order, n) + HandlersOf(r, order[n])[..k]
  {
    hide *;
    var a, own, hs := InOrder(r, order, n), HandlersOf(r, order[n]), InOrder(r, order, |order|);
    InOrderStep(r, order, n);
    InOrderPrefix(r, order, n + 1, |order|);
    FailureReport(a, own, hs, s, k);
    CorrectByFailure(r, order, s, res, |a| + k, n);
  }

  lemma {:induction false} InOrderStep<S>(r: Registry<S>, order: seq<Stage>, n: nat)
    requires n < |order|
    ensures InOrder(r, order, n + 1) == InOrder(r, order, n) + HandlersOf(r, order[n])
  {
    hide HandlersOf;
  }

  lemma {:induction false} CorrectByFailure<S>(
    r: Registry<S>, order: seq<Stage>, s: S, res: Result<S>, ran: nat, n: nat)
    requires n < |order|
    requires var hs := InOrder(r, order, |order|);
      && |InOrder(r, order, n)| < ran <= |InOrder(r, order, n + 1)| && ran <= |hs|
      && StopsAt(hs, s, ran) && !Succeed(hs, s, ran) && Failure(hs, s, ran - 1).Some?
      && res == Result(After(hs, s, ran), order[..n + 1], [order[n] + ": " + Failure(hs, s, ran - 1).value])
    ensures Correct(r, order, s, res, ran)
  {
    hide InOrder, After, Failure, Succeed, StopsAt;
    assert FailedIn(r, order, s, res, ran, n);
  }

  lemma {:induction false} FailureReport<S>(a: seq<Handler<S>>, own: seq<Handler<S>>, hs: seq<Handler<S>>, s: S, k: nat)
    requires a + own <= hs && Succeed(a, s, |a|) && 0 < k <= |own|
    requires Succeed(own, After(a, s, |a|), k - 1) && Failure(own, After(a, s, |a|), k - 1).Some?
    ensures StopsAt(hs, s, |a| + k) && !Succeed(hs, s, |a| + k)
    ensures After(hs, s, |a| + k) == After(own, After(a, s, |a|), k)
    ensures Failure(hs, s, |a| + k - 1) == Failure(own, After(a, s, |a|), k - 1)
    ensures hs[..|a| + k] == a + own[..k]
  {
    hide After, Failure, Succeed, StopsAt;
    FailsIn(a, own, s, k);
    SplitPrefix(a + own, hs);
    StopsInPrefix(a + own, hs[|a + own|..], s, |a| + k);
    TakeFromPrefix(a, own, k, hs);
  }

  lemma {:induction false} TakeFromPrefix<T>(a: seq<T>, b: seq<T>, k: nat, s: seq<T>)
    requires a + b <= s && k <= |b|
    ensures s[..|a| + k] == a + b[..k]
  {
  }

  lemma {:induction false} SplitPrefix<T>(p: seq<T>, s: seq<T>)
    requires p <= s
    ensures s == p + s[|p|..]
  {
  }

  lemma {:induction false} FailsIn<S>(a: seq<Handler<S>>, own: seq<Handler<S>>, s: S, k: nat)
    requires Succeed(a, s, |a|) && 0 < k <= |own|
    requires Succeed(own, After(a, s, |a|), k - 1) && Failure(own, After(a, s, |a|), k - 1).Some?
    ensures Succeed(a + own, s, |a| + k - 1)
    ensures Failure(a + own, s, |a| + k - 1) == Failure(own, After(a, s, |a|), k - 1)
    ensures After(a + own, s, |a| + k) == After(own, After(a, s, |a|), k)
  {
    hide After, Failure;
    AfterConcat(a, own, s, k);
    SucceedConcat(a, own, s, k - 1);
  }

  lemma {:induction false} SuccessIsCorrect<S>(r: Registry<S>, order: seq<Stage>, s: S, res: Result<S>)
    requires var hs := InOrder(r, order, |order|);
      Succeed(hs, s, |hs|) && res == Result(After(hs, s, |hs|), order, [])
    ensures Correct(r, order, s, res, |InOrder(r, order, |order|)|)
    ensures var hs := InOrder(r, order, |order|); hs[..|hs|] == hs
  {
  }

  lemma {:induction false} StartsEmpty<S>(r: Registry<S>, order: seq<Stage>, s: S)
    ensures var a := InOrder(r, order, 0); a == [] && Succeed(a, s, |a|) && After(a, s, |a|) == s
  {
  }

  lemma {:induction false} AllRan<S>(own: seq<Handler<S>>, a: seq<Handler<S>>, s: S, k: nat)
    requires Succeed(a, s, |a|) && StopsAt(own, After(a, s, |a|), k) && Succeed(own, After(a, s, |a|), k)
    ensures k == |own| && own[..k] == own
  {
  }

  /** Every registered callback, told the result once, in registration order. */
  function Told<S>(names: seq<nat>, res: Result<S>): seq<(nat, Result<S>)> {
    seq(|names|, i requires 0 <= i < |names| => (names[i], res))
  }

  class Bus<S(!new)> {
    var handlers: Registry<S>
    var onAfter: seq<nat>                      // the registered callbacks, by name
    var notified: seq<(nat, Result<S>)>        // every callback invocation so far
    ghost var invoked: seq<Handler<S>>         // every handler invocation so far

    constructor ()
      ensures handlers.Keys == {SCORE, CORRELATE, PLAYBOOK, SINK}
      ensures forall stage :: stage in handlers ==> handlers[stage] == []
      ensures onAfter == [] && notified == [] && invoked == []
    {
      handlers := map[SCORE := [], CORRELATE := [], PLAYBOOK := [], SINK := []];
      onAfter, notified, invoked := [], [], [];
    }

    /** Registering appends to the stage's list; a nil handler is ignored. */
    method On(stage: Stage, h: Option<Handler<S>>)
      modifies this`handlers
      ensures h.None? ==> handlers == old(handlers)
      ensures h.Some? ==> handlers == old(handlers)[stage := HandlersOf(old(handlers), stage) + [h.value]]
    {
      if h.None? {
        return;
      }
      handlers := handlers[stage := HandlersOf(handlers, stage) + [h.value]];
    }

    method AfterProcess(fn: Option<nat>)
      modifies this`onAfter
      ensures onAfter == if fn.Some? then old(onAfter) + [fn.value] else old(onAfter)
    {
      if fn.Some? {
        onAfter := onAfter + [fn.value];
      }
    }

    method Notify(res: Result<S>)
      modifies this`notified
      ensures notified == old(notified) + Told(onAfter, res)
    {
      for i := 0 to |onAfter|
        invariant notified == old(notified) + Told(onAfter[..i], res)
      {
        assert Told(onAfter[..i + 1], res) == Told(onAfter[..i], res) + [(onAfter[i], res)];
        notified := notified + [(onAfter[i], res)];
      }
      assert onAfter[..|onAfter|] == onAfter;
    }

    /** The handlers of one stage, up to and including the first that fails. */
    method RunStage(own: seq<Handler<S>>, s: S) returns (cur: S, err: Option<string>, ghost ran: nat)
      modifies this`invoked
      ensures StopsAt(own, s, ran) && cur == After(own, s, ran) && invoked == old(invoked) + own[..ran]
      ensures err.None? <==> Succeed(own, s, ran)
      ensures err.Some? ==> 0 < ran <= |own| && Succeed(own, s, ran - 1) && err == Failure(own, s, ran - 1)
    {
      hide After, Failure, Succeed;
      cur, err, ran := s, None, 0;
      NoneRan(own, s);
      for j := 0 to |own|
        invariant ran == j && Succeed(own, s, j) && cur == After(own, s, j)
        invariant invoked == old(invoked) + own[..j] && err == None
      {
        var r := own[j](cur);
        invoked := invoked + [own[j]];
        cur, err, ran := r.0, r.1, j + 1;
        OneRan(own, s, j);
        if err.Some? {
          return;
        }
      }
    }

    method RunStages(order: seq<Stage>, s: S) returns (res: Result<S>, ghost ran: nat)
      modifies this`notified, this`invoked
      ensures Correct(handlers, order, s, res, ran)
      ensures invoked == old(invoked) + InOrder(handlers, order, |order|)[..ran]
      ensures notified == old(notified) + Told(onAfter, res)
    {
      hide HandlersOf, After, Failure, Succeed, StopsAt, Correct, Told;
      var stagesRun, cur, err := [], s, None;
      StartsEmpty(handlers, order, s);
      for n := 0 to |order|
        invariant stagesRun == order[..n] && notified == old(notified)
        invariant var a := InOrder(handlers, order, n);
          Succeed(a, s, |a|) && cur == After(a, s, |a|) && invoked == old(invoked) + a
      {
        ghost var a, k := InOrder(handlers, order, n), 0;
        var stage := order[n];
        stagesRun := stagesRun + [stage];
        assert stagesRun == order[..n + 1];
        var own := HandlersOf(handlers, stage);
        cur, err, k := RunStage(own, cur);
        if err.Some? {
          ran := |a| + k;
          res := Result(cur, stagesRun, [stage + ": " + err.value]);
          FailureIsCorrect(handlers, order, s, res, n, k);
          Notify(res);
          return;
        }
        StopsInSuffix(a, own, s, k);
        AllRan(own, a, s, k);
      }
      ran := |InOrder(handlers, order, |order|)|;
      res := Result(cur, stagesRun, []);
      assert order[..|order|] == order;
      SuccessIsCorrect(handlers, order, s, res);
      Notify(res);
    }

    /** Process: Score, Correlate, Playbook, Sink. */
    method Process(s: S) returns (res: Result<S>, ghost ran: nat)
      modifies this`notified, this`invoked
      ensures Correct(handlers, STAGE_ORDER, s, res, ran)
      ensures invoked == old(invoked) + InOrder(handlers, STAGE_ORDER, |STAGE_ORDER|)[..ran]
      ensures notified == old(notified) + Told(onAfter, res)
    {
      res, ran := RunStages(STAGE_ORDER, s);
    }
  }
}
