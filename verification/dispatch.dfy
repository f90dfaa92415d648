/**
 What one `collect` batch does with its hits, as functions of the hits and of
 what the pointer reports. Within a batch whose first pointer read is call
 number `o`: read `o` is the original position, read `o + 1 + 2j` is taken just
 before click `j`, and read `o + 2 + 2j` just after it. The reference compared
 against before click `j` is therefore read `o + 2j`: the original position for
 the first click, the post-click read of the previous click afterwards.
 */
module Dispatch {
  import opened Screen
  import opened Platform

  /** The pointer moved more than the threshold between the reference and the
      read taken just before click `j`: a human has taken over. */
  predicate Interrupted(samples: nat -> Point, o: nat, j: nat)
  {
    Manhattan(samples(o + 1 + 2 * j), samples(o + 2 * j)) > MouseMoveThreshold
  }

  /** The first click at or after `from` (and before `n`) that is preceded by an
      interruption, or `n` if there is none. */
  function FirstInterruption(n: nat, samples: nat -> Point, o: nat, from: nat): (m: nat)
    requires from <= n
    ensures from <= m <= n
    ensures forall j :: from <= j < m ==> !Interrupted(samples, o, j)
    ensures m < n ==> Interrupted(samples, o, m)
    decreases n - from
  {
    if from == n || Interrupted(samples, o, from) then from
    else FirstInterruption(n, samples, o, from + 1)
  }

  /** How many of `n` hits get clicked. */
  function ClicksIssued(n: nat, samples: nat -> Point, o: nat): nat
  {
    FirstInterruption(n, samples, o, 0)
  }

  /** One click action per point, in order. */
  function Clicks(ps: seq<Point>): (t: seq<Action>)
  {
    seq(|ps|, k requires 0 <= k < |ps| => Action.Click(ps[k]))
  }

  lemma ClicksStep(ps: seq<Point>, i: nat)
    requires i < |ps|
    ensures Clicks(ps[..i + 1]) == Clicks(ps[..i]) + [Action.Click(ps[i])]
  {
    assert Clicks(ps[..i + 1])[i] == Action.Click(ps[i]);
  }

  /** `collect` returns true: there were hits and none of them was cut short. */
  predicate CollectSucceeds(hits: seq<Point>, samples: nat -> Point, o: nat)
  {
    hits != [] && ClicksIssued(|hits|, samples, o) == |hits|
  }

  /** The pointer actions of one batch: the clicks issued, then the move back to
      the original position only when the whole batch was clicked. */
  function CollectTrace(hits: seq<Point>, samples: nat -> Point, o: nat): seq<Action>
  {
    Clicks(hits[..ClicksIssued(|hits|, samples, o)])
    + (if CollectSucceeds(hits, samples, o) then [Action.MoveTo(samples(o))] else [])
  }

  /** How many pointer reads one batch makes. */
  function CallsUsed(hits: seq<Point>, samples: nat -> Point, o: nat): nat
  {
    var m := ClicksIssued(|hits|, samples, o);
    if hits == [] then 1
    else if m == |hits| then 1 + 2 * m
    else 2 + 2 * m
  }

  /** The click count is pinned down by where the first interruption is. */
  lemma ClicksIssuedIs(n: nat, samples: nat -> Point, o: nat, i: nat)
    requires i <= n
    requires forall j :: 0 <= j < i ==> !Interrupted(samples, o, j)
    requires i < n ==> Interrupted(samples, o, i)
    ensures ClicksIssued(n, samples, o) == i
  {
  }

  /** With no hits, `collect` returns false and issues no pointer action. */
  lemma CollectNoHits(samples: nat -> Point, o: nat)
    ensures !CollectSucceeds([], samples, o)
    ensures CollectTrace([], samples, o) == []
    ensures CallsUsed([], samples, o) == 1
  {
  }

  /** Completion: with no interruption every hit is clicked once, in order, and
      the pointer is then moved back to where it was at the start. */
  lemma CollectCompletes(hits: seq<Point>, samples: nat -> Point, o: nat)
    requires hits != []
    requires forall j :: 0 <= j < |hits| ==> !Interrupted(samples, o, j)
    ensures CollectSucceeds(hits, samples, o)
    ensures |CollectTrace(hits, samples, o)| == |hits| + 1
    ensures forall j :: 0 <= j < |hits| ==> CollectTrace(hits, samples, o)[j] == Action.Click(hits[j])
    ensures CollectTrace(hits, samples, o)[|hits|] == Action.MoveTo(samples(o))
    ensures CallsUsed(hits, samples, o) == 1 + 2 * |hits|
  {
    ClicksIssuedIs(|hits|, samples, o, |hits|);
    assert hits[..|hits|] == hits;
  }

  /** Interruption: if the pointer moved too far before click `j`, the hits from
      `j` on are never clicked, `collect` returns false and the pointer is left
      where the human put it. */
  lemma CollectAborts(hits: seq<Point>, samples: nat -> Point, o: nat, j: nat)
    requires j < |hits|
    requires forall i :: 0 <= i < j ==> !Interrupted(samples, o, i)
    requires Interrupted(samples, o, j)
    ensures !CollectSucceeds(hits, samples, o)
    ensures CollectTrace(hits, samples, o) == Clicks(hits[..j])
    ensures forall a :: a in CollectTrace(hits, samples, o) ==> a.Click?
    ensures CallsUsed(hits, samples, o) == 2 + 2 * j
  {
    ClicksIssuedIs(|hits|, samples, o, j);
  }

  /** Whatever happens, the clicks issued are a prefix of the hits in order, and
      the pointer is restored exactly when `collect` returns true. */
  lemma CollectTraceShape(hits: seq<Point>, samples: nat -> Point, o: nat)
    ensures var t := CollectTrace(hits, samples, o);
            && (forall k :: 0 <= k < |t| && t[k].Click? ==> k < |hits| && t[k] == Action.Click(hits[k]))
            && ((exists k :: 0 <= k < |t| && t[k].MoveTo?) <==> CollectSucceeds(hits, samples, o))
            && (CollectSucceeds(hits, samples, o) ==> t[|t| - 1] == Action.MoveTo(samples(o)))
  {
    var t := CollectTrace(hits, samples, o);
    var m := ClicksIssued(|hits|, samples, o);
    assert |Clicks(hits[..m])| == m;
    if CollectSucceeds(hits, samples, o) {
      assert t[m].MoveTo?;
    }
  }
}
