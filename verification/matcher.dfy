/**
 The matcher's deduplication: raw match offsets become screen-space centres,
 and a centre is kept only when it is at least `DedupRadius` away from every
 centre kept before it, in the row-major order the candidates arrive in.
 */
module Matcher {
  import opened Screen

  /** `p` lies within the dedup radius of some centre in `kept`. */
  predicate TooClose(p: Point, kept: seq<Point>)
  {
    exists k :: 0 <= k < |kept| && SqDist(p, kept[k]) < DedupRadius * DedupRadius
  }

  /** No two centres of `r` are within the dedup radius of each other. */
  ghost predicate Separated(r: seq<Point>)
  {
    forall i, j :: 0 <= i < |r| && 0 <= j < |r| && i != j ==>
      SqDist(r[i], r[j]) >= DedupRadius * DedupRadius
  }

  /** `a` is `b` with some elements removed, order kept. */
  ghost predicate IsSubsequence<T>(a: seq<T>, b: seq<T>)
    decreases |b|
  {
    if a == [] then true
    else if b == [] then false
    else (a[|a| - 1] == b[|b| - 1] && IsSubsequence(a[..|a| - 1], b[..|b| - 1]))
         || IsSubsequence(a, b[..|b| - 1])
  }

  /** The greedy clustering: the centres kept after visiting `s` in order. */
  function Dedup(s: seq<Point>): (r: seq<Point>)
    ensures |r| <= |s|
  {
    if s == [] then []
    else
      var kept := Dedup(s[..|s| - 1]);
      if TooClose(s[|s| - 1], kept) then kept else kept + [s[|s| - 1]]
  }

  /** The candidate offsets translated to screen-space centres, in the same order. */
  function Centers(t: Template, r: Region, cands: seq<Offset>): (cs: seq<Point>)
  {
    seq(|cands|, k requires 0 <= k < |cands| => Center(t, r, cands[k]))
  }

  /** The hits `find_template` returns for a present template. */
  function Hits(t: Template, r: Region, cands: seq<Offset>): seq<Point>
  {
    Dedup(Centers(t, r, cands))
  }

  lemma {:induction false} DedupSeparated(s: seq<Point>)
    ensures Separated(Dedup(s))
  {
    if s != [] {
      var kept := Dedup(s[..|s| - 1]);
      DedupSeparated(s[..|s| - 1]);
      var p := s[|s| - 1];
      if !TooClose(p, kept) {
        var r := kept + [p];
        forall i, j | 0 <= i < |r| && 0 <= j < |r| && i != j
          ensures SqDist(r[i], r[j]) >= DedupRadius * DedupRadius
        {
          if j == |kept| {
            assert SqDist(p, kept[i]) >= DedupRadius * DedupRadius;
            SqDistSymmetric(p, kept[i]);
          } else if i == |kept| {
            assert SqDist(p, kept[j]) >= DedupRadius * DedupRadius;
          }
        }
      }
    }
  }

  lemma {:induction false} DedupSubsequence(s: seq<Point>)
    ensures IsSubsequence(Dedup(s), s)
  {
    if s != [] {
      var init := s[..|s| - 1];
      var kept := Dedup(init);
      DedupSubsequence(init);
      if !TooClose(s[|s| - 1], kept) {
        var r := kept + [s[|s| - 1]];
        assert r[..|r| - 1] == kept;
      }
    }
  }

  lemma {:induction false} SubsequenceLength<T>(a: seq<T>, b: seq<T>)
    requires IsSubsequence(a, b)
    ensures |a| <= |b|
    decreases |b|
  {
    if a != [] {
      assert b != [];
      if a[|a| - 1] == b[|b| - 1] && IsSubsequence(a[..|a| - 1], b[..|b| - 1]) {
        SubsequenceLength(a[..|a| - 1], b[..|b| - 1]);
      } else {
        SubsequenceLength(a, b[..|b| - 1]);
      }
    }
  }

  lemma {:induction false} SubsequenceMembers<T>(a: seq<T>, b: seq<T>)
    requires IsSubsequence(a, b)
    ensures forall x :: x in a ==> x in b
    decreases |b|
  {
    if a != [] {
      var b' := b[..|b| - 1];
      if a[|a| - 1] == b[|b| - 1] && IsSubsequence(a[..|a| - 1], b') {
        SubsequenceMembers(a[..|a| - 1], b');
        assert a == a[..|a| - 1] + [b[|b| - 1]];
        assert b == b' + [b[|b| - 1]];
      } else {
        SubsequenceMembers(a, b');
        assert b == b' + [b[|b| - 1]];
      }
    }
  }

  /** The first candidate is always kept, and it stays first. */
  lemma {:induction false} DedupFirst(s: seq<Point>)
    requires s != []
    ensures Dedup(s) != [] && Dedup(s)[0] == s[0]
  {
    var init := s[..|s| - 1];
    if init == [] {
      assert !TooClose(s[0], Dedup(init));
    } else {
      DedupFirst(init);
    }
  }

  /** Later candidates never remove or reorder centres already kept. */
  lemma {:induction false} DedupPrefix(s: seq<Point>, i: nat)
    requires i <= |s|
    ensures Dedup(s[..i]) <= Dedup(s)
    decreases |s| - i
  {
    if i < |s| {
      var init := s[..|s| - 1];
      DedupPrefix(init, i);
      assert init[..i] == s[..i];
    } else {
      assert s[..i] == s;
    }
  }

  /** Each candidate is within the dedup radius of a centre kept no later than it:
      itself when it was kept, an earlier centre when it was dropped. */
  lemma DedupCoversEarlier(s: seq<Point>, i: nat)
    requires i < |s|
    ensures TooClose(s[i], Dedup(s[..i + 1]))
  {
    var t := s[..i + 1];
    assert t[..|t| - 1] == s[..i];
    var kept := Dedup(s[..i]);
    if TooClose(s[i], kept) {
      var k :| 0 <= k < |kept| && SqDist(s[i], kept[k]) < DedupRadius * DedupRadius;
      assert Dedup(t)[k] == kept[k];
    } else {
      assert Dedup(t)[|kept|] == s[i];
      assert SqDist(s[i], Dedup(t)[|kept|]) == 0;
    }
  }

  /** Coverage: every candidate lies within the dedup radius of some kept centre,
      so no candidate could be added to the result without breaking separation. */
  lemma DedupCovers(s: seq<Point>)
    ensures forall i :: 0 <= i < |s| ==> TooClose(s[i], Dedup(s))
  {
    forall i | 0 <= i < |s|
      ensures TooClose(s[i], Dedup(s))
    {
      DedupCoversEarlier(s, i);
      DedupPrefix(s, i + 1);
      var early := Dedup(s[..i + 1]);
      var k :| 0 <= k < |early| && SqDist(s[i], early[k]) < DedupRadius * DedupRadius;
      assert Dedup(s)[k] == early[k];
    }
  }

  /** What `find_template` promises about its hits for a present template. */
  lemma HitsProperties(t: Template, r: Region, cands: seq<Offset>)
    ensures |Hits(t, r, cands)| <= |cands|
    ensures Separated(Hits(t, r, cands))
    ensures cands != [] ==> Hits(t, r, cands) != [] && Hits(t, r, cands)[0] == Center(t, r, cands[0])
    ensures forall c :: c in Hits(t, r, cands) ==>
              exists k :: 0 <= k < |cands| && c == Center(t, r, cands[k])
    ensures forall k :: 0 <= k < |cands| ==> TooClose(Center(t, r, cands[k]), Hits(t, r, cands))
  {
    var cs := Centers(t, r, cands);
    DedupSeparated(cs);
    DedupSubsequence(cs);
    SubsequenceLength(Dedup(cs), cs);
    SubsequenceMembers(Dedup(cs), cs);
    if cands != [] {
      DedupFirst(cs);
    }
    DedupCovers(cs);
    forall k | 0 <= k < |cands|
      ensures TooClose(Center(t, r, cands[k]), Hits(t, r, cands))
    {
      assert cs[k] == Center(t, r, cands[k]);
    }
  }

  /** Two markers whose centres are 50 pixels apart give two hits. */
  lemma DedupKeepsDistantMarkers()
    ensures Dedup([Point(100, 100), Point(150, 100)]) == [Point(100, 100), Point(150, 100)]
  {
    var a, b := Point(100, 100), Point(150, 100);
    assert [a, b][..1] == [a];
    assert [a][..0] == [];
    assert Dedup([a]) == [a];
    assert !TooClose(b, [a]);
  }

  /** Two raw matches about 5 pixels apart collapse to one hit. */
  lemma DedupMergesNearMatches()
    ensures Dedup([Point(100, 100), Point(105, 102)]) == [Point(100, 100)]
  {
    var a, b := Point(100, 100), Point(105, 102);
    assert [a, b][..1] == [a];
    assert [a][..0] == [];
    assert Dedup([a]) == [a];
    assert TooClose(b, [a]) by {
      assert SqDist(b, [a][0]) < DedupRadius * DedupRadius;
    }
  }

  /** Dropping candidates (as a higher threshold would) can bring in a hit that
      the longer list did not have: the hits are not monotone in the candidates. */
  lemma DedupNotMonotone()
    ensures var a, b, c := Point(0, 0), Point(15, 0), Point(30, 0);
            IsSubsequence([b, c], [a, b, c])
            && Dedup([a, b, c]) == [a, c]
            && Dedup([b, c]) == [b]
            && b !in Dedup([a, b, c])
  {
    var a, b, c := Point(0, 0), Point(15, 0), Point(30, 0);
    assert [a, b, c][..2] == [a, b];
    assert [a, b][..1] == [a];
    assert [a][..0] == [];
    assert [b, c][..1] == [b];
    assert [b][..0] == [];
    assert Dedup([a]) == [a];
    assert Dedup([b]) == [b];
    assert TooClose(b, [a]) by {
      assert SqDist(b, [a][0]) < DedupRadius * DedupRadius;
    }
    assert Dedup([a, b]) == [a];
    assert !TooClose(c, [a]);
    assert TooClose(c, [b]) by {
      assert SqDist(c, [b][0]) < DedupRadius * DedupRadius;
    }
    assert IsSubsequence([b], [a, b]) by {
      assert [b][..0] == [];
    }
  }
}
