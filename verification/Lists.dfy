// List shapes shared by the campaign summaries: first-occurrence order, collapsed repeats, maxima.
module Lists {

  /** Drops the empty strings. */
  function NonEmpty(xs: seq<string>): seq<string> {
    if xs == [] then [] else (if xs[0] == "" then [] else [xs[0]]) + NonEmpty(xs[1..])
  }

  function Without(xs: seq<string>, x: string): (r: seq<string>)
    ensures forall y :: y in r <==> y in xs && y != x
  {
    if xs == [] then [] else (if xs[0] == x then [] else [xs[0]]) + Without(xs[1..], x)
  }

  /** The distinct elements of xs, in order of first occurrence. */
  function Uniq(xs: seq<string>): (r: seq<string>)
    ensures forall y :: y in r <==> y in xs
  {
    if xs == [] then [] else [xs[0]] + Without(Uniq(xs[1..]), xs[0])
  }

  /** xs with every run of equal neighbours shortened to one element. */
  function Collapse(xs: seq<string>): (r: seq<string>)
    ensures xs != [] ==> r != [] && r[0] == xs[0] && r[|r| - 1] == xs[|xs| - 1]
    ensures |r| <= |xs|
  {
    if |xs| <= 1 then xs
    else if xs[0] == xs[1] then Collapse(xs[1..])
    else [xs[0]] + Collapse(xs[1..])
  }

  predicate Distinct(xs: seq<string>) {
    forall i, j :: 0 <= i < j < |xs| ==> xs[i] != xs[j]
  }

  predicate NoEqualNeighbours(xs: seq<string>) {
    forall i :: 0 < i < |xs| ==> xs[i - 1] != xs[i]
  }

  /** The update the code performs: append x unless it is empty or already listed. */
  function AddUnique(xs: seq<string>, x: string): seq<string> {
    if x != "" && x !in xs then xs + [x] else xs
  }

  lemma {:induction false} NonEmptyAppend(xs: seq<string>, x: string)
    ensures NonEmpty(xs + [x]) == NonEmpty(xs) + (if x == "" then [] else [x])
  {
    if xs == [] {
      assert xs + [x] == [x];
    } else {
      NonEmptyAppend(xs[1..], x);
      assert (xs + [x])[1..] == xs[1..] + [x];
    }
  }

  lemma {:induction false} WithoutAppend(xs: seq<string>, x: string, y: string)
    ensures Without(xs + [y], x) == Without(xs, x) + (if y == x then [] else [y])
  {
    if xs == [] {
      assert xs + [y] == [y];
    } else {
      WithoutAppend(xs[1..], x, y);
      assert (xs + [y])[1..] == xs[1..] + [y];
    }
  }

  lemma {:induction false} UniqAppend(xs: seq<string>, x: string)
    ensures Uniq(xs + [x]) == if x in xs then Uniq(xs) else Uniq(xs) + [x]
  {
    if xs == [] {
      assert xs + [x] == [x];
    } else {
      var head, tail := xs[0], xs[1..];
      UniqAppend(tail, x);
      assert xs + [x] == [head] + (tail + [x]) && xs == [head] + tail;
      UniqCons(head, tail + [x]);
      UniqCons(head, tail);
      WithoutAppend(Uniq(tail), head, x);
      hide Uniq, Without;
      UniqLast(head, tail, Without(Uniq(tail), head), x);
    }
  }

  lemma {:induction false} UniqCons(head: string, tail: seq<string>)
    ensures Uniq([head] + tail) == [head] + Without(Uniq(tail), head)
  {
    assert ([head] + tail)[1..] == tail;
    hide Without;
  }

  lemma {:induction false} UniqLast(head: string, tail: seq<string>, rest: seq<string>, x: string)
    ensures x in [head] + tail <==> x == head || x in tail
    ensures [head] + (rest + [x]) == [head] + rest + [x]
  {
  }

  lemma {:induction false} CollapseAppend(xs: seq<string>, x: string)
    ensures Collapse(xs + [x]) ==
            if xs != [] && xs[|xs| - 1] == x then Collapse(xs) else Collapse(xs) + [x]
  {
    if xs == [] {
      assert xs + [x] == [x];
    } else if |xs| == 1 {
      assert (xs + [x])[1..] == [x];
      assert xs == [xs[0]];
    } else {
      CollapseAppend(xs[1..], x);
      assert (xs + [x])[1..] == xs[1..] + [x];
    }
  }

  lemma {:induction false} DistinctCons(x: string, xs: seq<string>)
    ensures Distinct([x] + xs) <==> x !in xs && Distinct(xs)
  {
    var ys := [x] + xs;
    assert forall i :: 0 <= i < |xs| ==> xs[i] == ys[i + 1];
    assert forall i :: 0 < i < |ys| ==> ys[i] == xs[i - 1];
    if x in xs {
      var k :| 0 <= k < |xs| && xs[k] == x;
      assert ys[0] == ys[k + 1];
    }
  }

  lemma {:induction false} WithoutDistinct(xs: seq<string>, x: string)
    requires Distinct(xs)
    ensures Distinct(Without(xs, x)) && |Without(xs, x)| <= |xs|
  {
    if xs != [] {
      assert xs == [xs[0]] + xs[1..];
      DistinctCons(xs[0], xs[1..]);
      WithoutDistinct(xs[1..], x);
      DistinctCons(xs[0], Without(xs[1..], x));
    }
  }

  lemma {:induction false} UniqDistinct(xs: seq<string>)
    ensures Distinct(Uniq(xs)) && |Uniq(xs)| <= |xs|
  {
    if xs != [] {
      UniqDistinct(xs[1..]);
      WithoutDistinct(Uniq(xs[1..]), xs[0]);
      DistinctCons(xs[0], Without(Uniq(xs[1..]), xs[0]));
    }
  }

  lemma {:induction false} CollapseHasNoEqualNeighbours(xs: seq<string>)
    ensures NoEqualNeighbours(Collapse(xs))
  {
    if |xs| > 1 {
      CollapseHasNoEqualNeighbours(xs[1..]);
    }
  }

  lemma {:induction false} WithoutAbsent(xs: seq<string>, x: string)
    requires x !in xs
    ensures Without(xs, x) == xs
  {
    if xs != [] {
      WithoutAbsent(xs[1..], x);
    }
  }

  /** Repeats do not change which elements come first. */
  lemma {:induction false} UniqOfCollapse(xs: seq<string>)
    ensures Uniq(Collapse(xs)) == Uniq(xs)
  {
    if |xs| > 1 {
      UniqOfCollapse(xs[1..]);
      if xs[0] == xs[1] {
        var rest := Uniq(xs[2..]);
        assert xs[1..][1..] == xs[2..];
        WithoutAbsent(Without(rest, xs[0]), xs[0]);
      }
    }
  }

  /** Where x first occurs in xs. */
  function FirstIndex(xs: seq<string>, x: string): (i: nat)
    requires x in xs
    ensures i < |xs| && xs[i] == x && x !in xs[..i]
  {
    if xs[0] == x then 0
    else
      var i := 1 + FirstIndex(xs[1..], x);
      assert xs[..i] == [xs[0]] + xs[1..][..i - 1];
      i
  }

  /** us lists elements of xs in the order in which they first occur there. */
  ghost predicate FirstOccurrenceOrder(us: seq<string>, xs: seq<string>) {
    && (forall i :: 0 <= i < |us| ==> us[i] in xs)
    && (forall i, j :: 0 <= i < j < |us| ==> FirstIndex(xs, us[i]) < FirstIndex(xs, us[j]))
  }

  lemma {:induction false} OrderCons(u: string, us: seq<string>, xs: seq<string>)
    requires u in xs && FirstOccurrenceOrder(us, xs)
    requires forall y :: y in us ==> FirstIndex(xs, u) < FirstIndex(xs, y)
    ensures FirstOccurrenceOrder([u] + us, xs)
  {
    var all := [u] + us;
    assert forall i :: 0 < i < |all| ==> all[i] == us[i - 1];
  }

  lemma {:induction false} WithoutInOrder(us: seq<string>, x: string, xs: seq<string>)
    requires FirstOccurrenceOrder(us, xs)
    ensures FirstOccurrenceOrder(Without(us, x), xs)
  {
    if us != [] {
      assert forall i :: 0 <= i < |us| - 1 ==> us[1..][i] == us[i + 1];
      WithoutInOrder(us[1..], x, xs);
      hide FirstIndex;
      if us[0] != x {
        forall y | y in Without(us[1..], x)
          ensures FirstIndex(xs, us[0]) < FirstIndex(xs, y)
        {
          var k :| 0 <= k < |us[1..]| && us[1..][k] == y;
          assert us[k + 1] == y;
        }
        OrderCons(us[0], Without(us[1..], x), xs);
      }
    }
  }

  /** Uniq keeps the order of first occurrence. */
  lemma {:induction false} UniqInOrder(xs: seq<string>)
    ensures FirstOccurrenceOrder(Uniq(xs), xs)
  {
    if xs != [] {
      UniqInOrder(xs[1..]);
      var rest := Without(Uniq(xs[1..]), xs[0]);
      WithoutInOrder(Uniq(xs[1..]), xs[0], xs[1..]);
      forall y | y in rest
        ensures FirstIndex(xs, y) == 1 + FirstIndex(xs[1..], y)
      {
      }
      assert forall i :: 0 <= i < |rest| ==> rest[i] in rest;
      assert FirstOccurrenceOrder(rest, xs);
      OrderCons(xs[0], rest, xs);
    }
  }

  lemma {:induction false} NonEmptyNoLonger(xs: seq<string>)
    ensures |NonEmpty(xs)| <= |xs| && "" !in NonEmpty(xs)
  {
    if xs != [] {
      NonEmptyNoLonger(xs[1..]);
    }
  }
}
