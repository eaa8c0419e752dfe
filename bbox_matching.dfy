/**
 * The matching phase of BoundingBox::updateCentroids: the distance table
 * between the surviving centroids and the detected boxes, and the greedy
 * walk over it in ascending distance that pairs each centroid with at most
 * one box.
 */
module BoxMatching {
  import opened Base
  import opened BoxTypes
  import opened BoxTracking

  /** The entries of row i of the distance table: centroid i against every box. */
  function DistanceRow(cs: seq<Centroid>, bs: seq<DetectedObject>, i: nat): (r: seq<DistanceEntry>)
    requires i < |cs|
    ensures |r| == |bs|
  {
    seq(|bs|, j requires 0 <= j < |bs| => DistanceEntry(i, j, PairDistance(cs[i], bs[j])))
  }

  /** Rows 0 .. n - 1 of the distance table, one after the other. */
  function DistanceRows(cs: seq<Centroid>, bs: seq<DetectedObject>, n: nat): (r: seq<DistanceEntry>)
    requires n <= |cs|
    ensures |r| == n * |bs|
  {
    if n == 0 then [] else DistanceRows(cs, bs, n - 1) + DistanceRow(cs, bs, n - 1)
  }

  /** The distance table updateCentroids builds before sorting it. */
  function DistanceTable(cs: seq<Centroid>, bs: seq<DetectedObject>): (r: seq<DistanceEntry>)
    ensures |r| == |cs| * |bs|
  {
    DistanceRows(cs, bs, |cs|)
  }

  /** The pair (i, j) sits at DistanceSlot(i, j, |bs|). */
  lemma {:induction false} DistanceRowsAt(cs: seq<Centroid>, bs: seq<DetectedObject>, n: nat, i: nat, j: nat)
    requires i < n <= |cs| && j < |bs|
    ensures DistanceSlot(i, j, |bs|) < |DistanceRows(cs, bs, n)|
    ensures DistanceRows(cs, bs, n)[DistanceSlot(i, j, |bs|)] == DistanceEntry(i, j, PairDistance(cs[i], bs[j]))
    decreases n
  {
    DistanceSlotInRange(i, j, n, |bs|);
    var prefix := DistanceRows(cs, bs, n - 1);
    if i == n - 1 {
      assert DistanceSlot(i, j, |bs|) == |prefix| + j;
    } else {
      DistanceRowsAt(cs, bs, n - 1, i, j);
    }
  }

  /** Every entry of the table names a centroid and a box and holds their distance. */
  lemma {:induction false} DistanceRowsEntries(cs: seq<Centroid>, bs: seq<DetectedObject>, n: nat, e: DistanceEntry)
    requires n <= |cs| && e in DistanceRows(cs, bs, n)
    ensures e.centroidIdx < n && e.boxIdx < |bs| && e.distance == PairDistance(cs[e.centroidIdx], bs[e.boxIdx])
    decreases n
  {
    if e !in DistanceRow(cs, bs, n - 1) {
      DistanceRowsEntries(cs, bs, n - 1, e);
    }
  }

  /** The table, sorted by distance, as the greedy walk reads it. */
  function SortedTable(cs: seq<Centroid>, bs: seq<DetectedObject>): (r: seq<DistanceEntry>)
    ensures |r| == |cs| * |bs|
  {
    SortByDistance(DistanceTable(cs, bs))
  }

  /**
   * What the greedy walk relies on: ascending distances, every entry naming
   * a centroid and a box with their distance, and every pair present.
   */
  predicate TableFor(sorted: seq<DistanceEntry>, cs: seq<Centroid>, bs: seq<DetectedObject>) {
    AscendingByDistance(sorted)
    && (forall t :: 0 <= t < |sorted| ==>
          sorted[t].centroidIdx < |cs| && sorted[t].boxIdx < |bs|
          && sorted[t].distance == PairDistance(cs[sorted[t].centroidIdx], bs[sorted[t].boxIdx]))
    && (forall i, j :: 0 <= i < |cs| && 0 <= j < |bs| ==> DistanceEntry(i, j, PairDistance(cs[i], bs[j])) in sorted)
  }

  /** The sorted table holds every pair exactly as the walk needs it. */
  lemma {:induction false} SortedTableFor(cs: seq<Centroid>, bs: seq<DetectedObject>)
    ensures TableFor(SortedTable(cs, bs), cs, bs)
  {
    var table := DistanceTable(cs, bs);
    var sorted := SortedTable(cs, bs);
    SortByDistanceSpec(table);
    forall t | 0 <= t < |sorted|
      ensures sorted[t].centroidIdx < |cs| && sorted[t].boxIdx < |bs|
      ensures sorted[t].distance == PairDistance(cs[sorted[t].centroidIdx], bs[sorted[t].boxIdx])
    {
      assert sorted[t] in multiset(table);
      DistanceRowsEntries(cs, bs, |cs|, sorted[t]);
    }
    forall i, j | 0 <= i < |cs| && 0 <= j < |bs|
      ensures DistanceEntry(i, j, PairDistance(cs[i], bs[j])) in sorted
    {
      DistanceRowsAt(cs, bs, |cs|, i, j);
      assert DistanceEntry(i, j, PairDistance(cs[i], bs[j])) in multiset(sorted);
    }
  }

  /** The centroids and the boxes while the walk updates them. */
  datatype Matching = Matching(centroids: seq<Centroid>, boxes: seq<DetectedObject>)

  /** An entry whose centroid has id 0, whose box is taken or whose centroid is matched is passed over. */
  predicate Settled(m: Matching, e: DistanceEntry)
    requires e.centroidIdx < |m.centroids| && e.boxIdx < |m.boxes|
  {
    m.centroids[e.centroidIdx].id == 0 || m.boxes[e.boxIdx].trackingId != 0
    || m.centroids[e.centroidIdx].matched.Some?
  }

  /** One step of the walk: pair the entry's centroid and box unless the entry is settled. */
  function MatchEntry(m: Matching, e: DistanceEntry): (r: Matching)
    requires e.centroidIdx < |m.centroids| && e.boxIdx < |m.boxes|
    ensures |r.centroids| == |m.centroids| && |r.boxes| == |m.boxes|
  {
    var c, b := e.centroidIdx, e.boxIdx;
    if Settled(m, e) then m
    else Matching(m.centroids[c := m.centroids[c].(matched := Some(b), cdf := 0)],
                  m.boxes[b := m.boxes[b].(trackingId := m.centroids[c].id)])
  }

  predicate EntriesFit(sorted: seq<DistanceEntry>, m: Matching) {
    forall t :: 0 <= t < |sorted| ==> sorted[t].centroidIdx < |m.centroids| && sorted[t].boxIdx < |m.boxes|
  }

  /** The walk over the first d entries of the sorted table. */
  function MatchPrefix(m: Matching, sorted: seq<DistanceEntry>, d: nat): (r: Matching)
    requires d <= |sorted| && EntriesFit(sorted, m)
    ensures |r.centroids| == |m.centroids| && |r.boxes| == |m.boxes|
  {
    if d == 0 then m else MatchEntry(MatchPrefix(m, sorted, d - 1), sorted[d - 1])
  }

  /** Only the counters and matches of centroids and the tracking ids of boxes change. */
  predicate SameShape(m0: Matching, m: Matching) {
    |m.centroids| == |m0.centroids| && |m.boxes| == |m0.boxes|
    && (forall k :: 0 <= k < |m.centroids| ==>
          m.centroids[k] == m0.centroids[k].(cdf := m.centroids[k].cdf, matched := m.centroids[k].matched))
    && (forall b :: 0 <= b < |m.boxes| ==> m.boxes[b] == m0.boxes[b].(trackingId := m.boxes[b].trackingId))
  }

  /**
   * An unmatched centroid keeps its counter; a matched one has a non-zero
   * id, a counter of 0, and a box that was untracked and now carries its id.
   */
  predicate MatchesSound(m0: Matching, m: Matching)
    requires SameShape(m0, m)
  {
    forall k :: 0 <= k < |m.centroids| ==>
      match m.centroids[k].matched
      case None => m.centroids[k].cdf == m0.centroids[k].cdf
      case Some(b) =>
        b < |m.boxes| && m.centroids[k].cdf == 0 && m0.centroids[k].id != 0
        && m0.boxes[b].trackingId == 0 && m.boxes[b].trackingId == m0.centroids[k].id
  }

  /** A tracked box keeps its id; a box that got one was claimed by a centroid. */
  predicate BoxesSound(m0: Matching, m: Matching)
    requires SameShape(m0, m)
  {
    forall b :: 0 <= b < |m.boxes| ==>
      (m0.boxes[b].trackingId != 0 ==> m.boxes[b].trackingId == m0.boxes[b].trackingId)
      && (m.boxes[b].trackingId != m0.boxes[b].trackingId ==>
            exists k :: 0 <= k < |m.centroids| && m.centroids[k].matched == Some(b))
  }

  /** Every entry already walked over is settled. */
  predicate WalkedSettled(sorted: seq<DistanceEntry>, d: nat, m: Matching)
    requires d <= |sorted| && EntriesFit(sorted, m)
  {
    forall t :: 0 <= t < d ==> Settled(m, sorted[t])
  }

  /** A matched centroid's closer boxes all carry a tracking id. */
  predicate CloserBoxesTaken(m0: Matching, m: Matching)
    requires SameShape(m0, m) && MatchesSound(m0, m)
  {
    forall k, b :: 0 <= k < |m.centroids| && 0 <= b < |m.boxes| && m.centroids[k].matched.Some?
      && PairDistance(m0.centroids[k], m0.boxes[b]) < PairDistance(m0.centroids[k], m0.boxes[m.centroids[k].matched.value])
      ==> m.boxes[b].trackingId != 0
  }

  /** A matched box's closer centroids with a non-zero id are all matched. */
  predicate CloserCentroidsMatched(m0: Matching, m: Matching)
    requires SameShape(m0, m) && MatchesSound(m0, m)
  {
    forall k, k2 :: 0 <= k < |m.centroids| && 0 <= k2 < |m.centroids| && m.centroids[k].matched.Some?
      && m0.centroids[k2].id != 0
      && PairDistance(m0.centroids[k2], m0.boxes[m.centroids[k].matched.value])
         < PairDistance(m0.centroids[k], m0.boxes[m.centroids[k].matched.value])
      ==> m.centroids[k2].matched.Some?
  }

  predicate NoneMatched(m: Matching) {
    forall k :: 0 <= k < |m.centroids| ==> m.centroids[k].matched.None?
  }

  /** The invariant of the walk after d entries. */
  predicate WalkInvariant(m0: Matching, sorted: seq<DistanceEntry>, d: nat, m: Matching) {
    d <= |sorted| && EntriesFit(sorted, m) && SameShape(m0, m) && MatchesSound(m0, m) && BoxesSound(m0, m)
    && WalkedSettled(sorted, d, m) && CloserBoxesTaken(m0, m) && CloserCentroidsMatched(m0, m)
  }

  /** A step that pairs a centroid with a box keeps the shape and the soundness of the matches. */
  lemma {:induction false} MatchStepSound(m0: Matching, sorted: seq<DistanceEntry>, d: nat, m: Matching)
    requires d < |sorted| && WalkInvariant(m0, sorted, d, m) && !Settled(m, sorted[d])
    ensures SameShape(m0, MatchEntry(m, sorted[d])) && MatchesSound(m0, MatchEntry(m, sorted[d]))
  {
    var e := sorted[d];
    var c, b := e.centroidIdx, e.boxIdx;
    assert m0.boxes[b].trackingId == 0;
    forall k | 0 <= k < |m.centroids| && m.centroids[k].matched == Some(b)
      ensures false
    {
    }
  }

  /** A step that pairs a centroid with a box keeps tracked boxes as they were and records the claim. */
  lemma {:induction false} MatchStepBoxes(m0: Matching, sorted: seq<DistanceEntry>, d: nat, m: Matching)
    requires d < |sorted| && WalkInvariant(m0, sorted, d, m) && !Settled(m, sorted[d])
    requires SameShape(m0, MatchEntry(m, sorted[d]))
    ensures BoxesSound(m0, MatchEntry(m, sorted[d]))
  {
    var e := sorted[d];
    var c, b := e.centroidIdx, e.boxIdx;
    var r := MatchEntry(m, e);
    forall x | 0 <= x < |r.boxes|
      ensures m0.boxes[x].trackingId != 0 ==> r.boxes[x].trackingId == m0.boxes[x].trackingId
      ensures r.boxes[x].trackingId != m0.boxes[x].trackingId ==>
        exists k :: 0 <= k < |r.centroids| && r.centroids[k].matched == Some(x)
    {
      if x == b {
        assert r.centroids[c].matched == Some(b);
      } else if r.boxes[x].trackingId != m0.boxes[x].trackingId {
        var k :| 0 <= k < |m.centroids| && m.centroids[k].matched == Some(x);
        assert r.centroids[k].matched == Some(x);
      }
    }
  }

  /** After a step, every entry up to and including the one just read is settled. */
  lemma {:induction false} MatchStepSettles(m0: Matching, sorted: seq<DistanceEntry>, d: nat, m: Matching)
    requires d < |sorted| && WalkInvariant(m0, sorted, d, m)
    ensures EntriesFit(sorted, MatchEntry(m, sorted[d]))
    ensures WalkedSettled(sorted, d + 1, MatchEntry(m, sorted[d]))
  {
    var r := MatchEntry(m, sorted[d]);
    forall t | 0 <= t < d + 1
      ensures Settled(r, sorted[t])
    {
      if t < d {
        assert Settled(m, sorted[t]);
      }
    }
  }

  /** A settled entry stays settled, and everything the walk has established survives one more step. */
  lemma {:induction false} MatchEntryPreserves(m0: Matching, sorted: seq<DistanceEntry>, d: nat, m: Matching)
    requires TableFor(sorted, m0.centroids, m0.boxes) && NoneMatched(m0)
    requires d < |sorted| && WalkInvariant(m0, sorted, d, m)
    ensures WalkInvariant(m0, sorted, d + 1, MatchEntry(m, sorted[d]))
  {
    MatchStepSettles(m0, sorted, d, m);
    if !Settled(m, sorted[d]) {
      MatchStepSound(m0, sorted, d, m);
      MatchStepBoxes(m0, sorted, d, m);
      CloserBoxesTakenStep(m0, sorted, d, m);
      CloserCentroidsMatchedStep(m0, sorted, d, m);
    }
  }

  /** The new match of a step has its closer boxes taken; earlier matches keep theirs. */
  lemma {:induction false} CloserBoxesTakenStep(m0: Matching, sorted: seq<DistanceEntry>, d: nat, m: Matching)
    requires TableFor(sorted, m0.centroids, m0.boxes) && NoneMatched(m0)
    requires d < |sorted| && WalkInvariant(m0, sorted, d, m) && !Settled(m, sorted[d])
    requires SameShape(m0, MatchEntry(m, sorted[d])) && MatchesSound(m0, MatchEntry(m, sorted[d]))
    ensures CloserBoxesTaken(m0, MatchEntry(m, sorted[d]))
  {
    var e := sorted[d];
    var c, b := e.centroidIdx, e.boxIdx;
    var r := MatchEntry(m, e);
    forall k, x | 0 <= k < |r.centroids| && 0 <= x < |r.boxes| && r.centroids[k].matched.Some?
      && PairDistance(m0.centroids[k], m0.boxes[x]) < PairDistance(m0.centroids[k], m0.boxes[r.centroids[k].matched.value])
      ensures r.boxes[x].trackingId != 0
    {
      if k == c {
        var closer := DistanceEntry(c, x, PairDistance(m0.centroids[c], m0.boxes[x]));
        assert closer in sorted;
        CloserComesFirst(sorted, d, closer);
        var t :| 0 <= t < d && sorted[t] == closer;
        assert Settled(m, sorted[t]);
        assert x != b;
      } else {
        assert m.centroids[k].matched == r.centroids[k].matched;
        assert m.boxes[x].trackingId != 0;
      }
    }
  }

  /** The new match of a step has its closer centroids matched; earlier matches keep theirs. */
  lemma {:induction false} CloserCentroidsMatchedStep(m0: Matching, sorted: seq<DistanceEntry>, d: nat, m: Matching)
    requires TableFor(sorted, m0.centroids, m0.boxes) && NoneMatched(m0)
    requires d < |sorted| && WalkInvariant(m0, sorted, d, m) && !Settled(m, sorted[d])
    requires SameShape(m0, MatchEntry(m, sorted[d])) && MatchesSound(m0, MatchEntry(m, sorted[d]))
    ensures CloserCentroidsMatched(m0, MatchEntry(m, sorted[d]))
  {
    var e := sorted[d];
    var c, b := e.centroidIdx, e.boxIdx;
    var r := MatchEntry(m, e);
    forall k, k2 | 0 <= k < |r.centroids| && 0 <= k2 < |r.centroids| && r.centroids[k].matched.Some?
      && m0.centroids[k2].id != 0
      && PairDistance(m0.centroids[k2], m0.boxes[r.centroids[k].matched.value])
         < PairDistance(m0.centroids[k], m0.boxes[r.centroids[k].matched.value])
      ensures r.centroids[k2].matched.Some?
    {
      if k == c {
        var closer := DistanceEntry(k2, b, PairDistance(m0.centroids[k2], m0.boxes[b]));
        assert closer in sorted;
        CloserComesFirst(sorted, d, closer);
        var t :| 0 <= t < d && sorted[t] == closer;
        assert Settled(m, sorted[t]);
        assert m.centroids[k2].id == m0.centroids[k2].id;
      } else {
        assert m.centroids[k].matched == r.centroids[k].matched;
        assert m.centroids[k2].matched.Some?;
      }
    }
  }

  lemma {:induction false} TableEntriesFit(sorted: seq<DistanceEntry>, m0: Matching)
    requires TableFor(sorted, m0.centroids, m0.boxes)
    ensures EntriesFit(sorted, m0)
  {
  }

  /** Before the walk, nothing is matched and nothing has changed. */
  lemma {:induction false} WalkInvariantStart(m0: Matching, sorted: seq<DistanceEntry>)
    requires NoneMatched(m0) && EntriesFit(sorted, m0)
    ensures WalkInvariant(m0, sorted, 0, m0)
  {
    assert SameShape(m0, m0);
    assert MatchesSound(m0, m0);
  }

  /** One more entry of the walk keeps its invariant. */
  lemma {:induction false} MatchPrefixStep(m0: Matching, sorted: seq<DistanceEntry>, d: nat)
    requires TableFor(sorted, m0.centroids, m0.boxes) && NoneMatched(m0) && d < |sorted|
    requires EntriesFit(sorted, m0)
    requires WalkInvariant(m0, sorted, d, MatchPrefix(m0, sorted, d))
    ensures WalkInvariant(m0, sorted, d + 1, MatchPrefix(m0, sorted, d + 1))
  {
    MatchEntryPreserves(m0, sorted, d, MatchPrefix(m0, sorted, d));
  }

  /** The walk keeps its invariant over any prefix of the sorted table. */
  lemma {:induction false} MatchPrefixInvariant(m0: Matching, sorted: seq<DistanceEntry>, d: nat)
    requires TableFor(sorted, m0.centroids, m0.boxes) && NoneMatched(m0) && d <= |sorted|
    requires EntriesFit(sorted, m0)
    ensures WalkInvariant(m0, sorted, d, MatchPrefix(m0, sorted, d))
    decreases d
  {
    if d == 0 {
      WalkInvariantStart(m0, sorted);
    } else {
      var e := d - 1;
      MatchPrefixInvariant(m0, sorted, e);
      MatchPrefixStep(m0, sorted, e);
      assert e + 1 == d;
    }
  }

  /**
   * After the whole table is walked, no pair is left open: every centroid
   * with a non-zero id is matched, or every box carries a tracking id.
   */
  lemma {:induction false} MatchWalkMaximal(m0: Matching, sorted: seq<DistanceEntry>)
    requires TableFor(sorted, m0.centroids, m0.boxes) && NoneMatched(m0) && EntriesFit(sorted, m0)
    ensures var m := MatchPrefix(m0, sorted, |sorted|);
      forall k, b :: 0 <= k < |m.centroids| && 0 <= b < |m.boxes| && m.centroids[k].id != 0 ==>
        m.centroids[k].matched.Some? || m.boxes[b].trackingId != 0
  {
    var m := MatchPrefix(m0, sorted, |sorted|);
    MatchPrefixInvariant(m0, sorted, |sorted|);
    forall k, b | 0 <= k < |m.centroids| && 0 <= b < |m.boxes| && m.centroids[k].id != 0
      ensures m.centroids[k].matched.Some? || m.boxes[b].trackingId != 0
    {
      var e := DistanceEntry(k, b, PairDistance(m0.centroids[k], m0.boxes[b]));
      assert e in sorted;
      var t :| 0 <= t < |sorted| && sorted[t] == e;
      assert Settled(m, sorted[t]);
    }
  }
}
