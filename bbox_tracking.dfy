/**
 * Values and pure definitions behind the centroid tracker of the
 * bounding-box decoder (BoundingBox::updateCentroids): centroids, the
 * distance table between centroids and boxes, its ordering, and where each
 * (centroid, box) pair is stored in the table.
 */
module BoxTracking {
  import opened Base
  import opened BoxTypes

  /**
   * A tracked object. `matched` is the index of the box matched in the
   * current frame; the source encodes "none" as G_MAXUINT32.
   */
  datatype Centroid = Centroid(id: nat, cdf: nat, cx: int, cy: int, matched: Option<nat>)

  /** One entry of the distance table. */
  datatype DistanceEntry = DistanceEntry(centroidIdx: nat, boxIdx: nat, distance: nat)

  /** C's `v / 2` on int: the quotient truncated toward zero. */
  function Half(v: int): (h: int)
    ensures v >= 0 ==> 0 <= h && h + h <= v < h + h + 2
    ensures v < 0 ==> h <= 0 && v <= h + h && h + h - 2 < v
  {
    if v >= 0 then v / 2 else -((-v) / 2)
  }

  function CenterX(box: DetectedObject): int { box.x + Half(box.width) }

  function CenterY(box: DetectedObject): int { box.y + Half(box.height) }

  /** A new centroid registered for box number `b`. */
  function NewCentroid(id: nat, box: DetectedObject, b: nat): Centroid {
    Centroid(id, 0, CenterX(box), CenterY(box), Some(b))
  }

  /**
   * The distance the tracker stores for a centroid and a box: the squared
   * euclidean distance of their centres, or G_MAXUINT64 for a centroid with
   * id 0.
   */
  function PairDistance(c: Centroid, box: DetectedObject): (d: nat)
    ensures c.id == 0 ==> d == MAX_UINT64
    ensures c.id != 0 && c.cx == CenterX(box) && c.cy == CenterY(box) ==> d == 0
  {
    if c.id == 0 then MAX_UINT64
    else (c.cx - CenterX(box)) * (c.cx - CenterX(box)) + (c.cy - CenterY(box)) * (c.cy - CenterY(box))
  }

  /** The centroids that did not disappear for `threshold` frames or more, in order. */
  function Survivors(cs: seq<Centroid>, threshold: nat): (r: seq<Centroid>)
    ensures |r| <= |cs|
    decreases |cs|
  {
    if cs == [] then []
    else (if cs[0].cdf < threshold then [cs[0]] else []) + Survivors(cs[1..], threshold)
  }

  lemma {:induction false} SurvivorsAppend(a: seq<Centroid>, b: seq<Centroid>, threshold: nat)
    ensures Survivors(a + b, threshold) == Survivors(a, threshold) + Survivors(b, threshold)
    decreases |a|
  {
    if a == [] {
      assert a + b == b;
    } else {
      assert (a + b)[1..] == a[1..] + b;
      SurvivorsAppend(a[1..], b, threshold);
    }
  }

  /** A centroid survives exactly when it is one of the old ones and has not disappeared too long. */
  lemma {:induction false} SurvivorsMembers(cs: seq<Centroid>, threshold: nat, c: Centroid)
    ensures c in Survivors(cs, threshold) <==> c in cs && c.cdf < threshold
    decreases |cs|
  {
    if cs != [] {
      SurvivorsMembers(cs[1..], threshold, c);
      assert cs == [cs[0]] + cs[1..];
    }
  }

  /** Where the tracker stores the pair (centroid i, box j) among numBoxes boxes per centroid. */
  function DistanceSlot(i: nat, j: nat, numBoxes: nat): nat {
    i * numBoxes + j
  }

  lemma {:induction false} MulMonotone(k: nat, a: nat, b: nat)
    requires a <= b
    ensures k * a <= k * b
  {
    assert k * b - k * a == k * (b - a);
  }

  /** Every pair lands inside a table of numCentroids * numBoxes entries. */
  lemma {:induction false} DistanceSlotInRange(i: nat, j: nat, numCentroids: nat, numBoxes: nat)
    requires i < numCentroids && j < numBoxes
    ensures DistanceSlot(i, j, numBoxes) < numCentroids * numBoxes
  {
    MulMonotone(numBoxes, i + 1, numCentroids);
    assert numBoxes * (i + 1) == i * numBoxes + numBoxes;
  }

  /** No two pairs share a slot. */
  lemma {:induction false} DistanceSlotInjective(i1: nat, j1: nat, i2: nat, j2: nat, numBoxes: nat)
    requires j1 < numBoxes && j2 < numBoxes
    requires DistanceSlot(i1, j1, numBoxes) == DistanceSlot(i2, j2, numBoxes)
    ensures i1 == i2 && j1 == j2
  {
    if i1 < i2 {
      MulMonotone(numBoxes, i1 + 1, i2);
      assert false;
    } else if i2 < i1 {
      MulMonotone(numBoxes, i2 + 1, i1);
      assert false;
    }
  }

  /** Every slot of the table holds some pair, so the table has no stale entry. */
  lemma {:induction false} DistanceSlotCovers(k: nat, numCentroids: nat, numBoxes: nat)
    requires k < numCentroids * numBoxes
    ensures numBoxes > 0 && k / numBoxes < numCentroids && k % numBoxes < numBoxes
    ensures DistanceSlot(k / numBoxes, k % numBoxes, numBoxes) == k
  {
    if numBoxes == 0 {
      assert false;
    }
    if k / numBoxes >= numCentroids {
      MulMonotone(numBoxes, numCentroids, k / numBoxes);
      assert false;
    }
  }

  /**
   * Row i of the nested loop as updateCentroids writes it, columns 0 .. j - 1,
   * on a table whose earlier contents are `table`. The slot of the pair
   * (i, c) is computed as i * numCentroids + c, multiplying by the number of
   * centroids where DistanceSlot multiplies by the number of boxes. A slot
   * past the table's length is outside it (it lands in the array's reserved
   * capacity) and is lost.
   */
  function AsWrittenRow(table: seq<DistanceEntry>, i: nat, j: nat, numCentroids: nat,
                        dist: (nat, nat) -> nat): (r: seq<DistanceEntry>)
    ensures |r| == |table|
    decreases j
  {
    if j == 0 then table
    else
      var t := AsWrittenRow(table, i, j - 1, numCentroids, dist);
      var slot := i * numCentroids + (j - 1);
      if slot < |t| then t[slot := DistanceEntry(i, j - 1, dist(i, j - 1))] else t
  }

  /** Rows 0 .. rows - 1 of the nested loop as written, numBoxes columns each. */
  function AsWrittenTable(table: seq<DistanceEntry>, rows: nat, numCentroids: nat, numBoxes: nat,
                          dist: (nat, nat) -> nat): (r: seq<DistanceEntry>)
    ensures |r| == |table|
    decreases rows
  {
    if rows == 0 then table
    else AsWrittenRow(AsWrittenTable(table, rows - 1, numCentroids, numBoxes, dist), rows - 1, numBoxes, numCentroids, dist)
  }

  /** The entry g_array_set_size zero-fills a grown table with. */
  const ZeroEntry := DistanceEntry(0, 0, 0)

  /**
   * Row i as written stores column c at slot i * numCentroids + c, for the
   * columns written so far whose slot is inside the table, and leaves every
   * other slot as it was.
   */
  lemma {:induction false} AsWrittenRowAt(table: seq<DistanceEntry>, i: nat, j: nat, numCentroids: nat,
                                          dist: (nat, nat) -> nat, k: nat)
    requires k < |table|
    ensures var base := i * numCentroids;
      AsWrittenRow(table, i, j, numCentroids, dist)[k]
        == if base <= k < base + j then DistanceEntry(i, k - base, dist(i, k - base)) else table[k]
    decreases j
  {
    if j > 0 {
      AsWrittenRowAt(table, i, j - 1, numCentroids, dist, k);
    }
  }

  /**
   * Two centroids and three boxes: the pair (centroid 0, box 2) written to
   * slot 2 is overwritten by (centroid 1, box 0), so no written entry holds
   * it, and slot 5 keeps whatever the table held before (zeros when it has
   * just grown).
   */
  lemma {:induction false} AsWrittenLosesPair(init: seq<DistanceEntry>, dist: (nat, nat) -> nat)
    requires |init| == 6
    ensures var t := AsWrittenTable(init, 2, 2, 3, dist);
      (forall k :: 0 <= k < 5 ==> (t[k].centroidIdx, t[k].boxIdx) != (0, 2)) && t[5] == init[5]
  {
    assert AsWrittenTable(init, 0, 2, 3, dist) == init;
    var row0 := AsWrittenTable(init, 1, 2, 3, dist);
    var t := AsWrittenTable(init, 2, 2, 3, dist);
    forall k | 0 <= k < 6
      ensures t[k] == if k < 2 then DistanceEntry(0, k, dist(0, k))
                      else if k < 5 then DistanceEntry(1, k - 2, dist(1, k - 2))
                      else init[5]
    {
      AsWrittenRowAt(init, 0, 3, 2, dist, k);
      AsWrittenRowAt(row0, 1, 3, 2, dist, k);
    }
  }

  /**
   * Two centroids and one box: the pair (centroid 1, box 0) is written past
   * the table and lost, and the second slot keeps whatever the table held
   * before (a zero-filled entry claiming distance 0 between centroid 0 and
   * box 0 when it has just grown).
   */
  lemma {:induction false} AsWrittenDropsPair(init: seq<DistanceEntry>, dist: (nat, nat) -> nat)
    requires |init| == 2
    ensures AsWrittenTable(init, 2, 2, 1, dist) == [DistanceEntry(0, 0, dist(0, 0)), init[1]]
  {
    assert AsWrittenTable(init, 0, 2, 1, dist) == init;
    assert AsWrittenTable(init, 1, 2, 1, dist) == init[0 := DistanceEntry(0, 0, dist(0, 0))];
  }

  predicate AscendingByDistance(s: seq<DistanceEntry>) {
    forall i, j :: 0 <= i < j < |s| ==> s[i].distance <= s[j].distance
  }

  /**
   * Inserts x in front of the first entry whose distance is not smaller, so
   * an entry keeps its place relative to equal ones met later.
   */
  function InsertByDistance(x: DistanceEntry, s: seq<DistanceEntry>): (r: seq<DistanceEntry>)
    ensures |r| == |s| + 1
    decreases |s|
  {
    if s == [] || x.distance <= s[0].distance then [x] + s
    else [s[0]] + InsertByDistance(x, s[1..])
  }

  /** g_array_sort with distance_compare: smaller distance first, equal ones in table order. */
  function SortByDistance(s: seq<DistanceEntry>): (r: seq<DistanceEntry>)
    ensures |r| == |s|
    decreases |s|
  {
    if s == [] then [] else InsertByDistance(s[0], SortByDistance(s[1..]))
  }

  lemma {:induction false} InsertByDistancePermutes(x: DistanceEntry, s: seq<DistanceEntry>)
    ensures multiset(InsertByDistance(x, s)) == multiset(s) + multiset{x}
    decreases |s|
  {
    if !(s == [] || x.distance <= s[0].distance) {
      InsertByDistancePermutes(x, s[1..]);
      assert s == [s[0]] + s[1..];
    }
  }

  lemma {:induction false} ConsAscending(h: DistanceEntry, r: seq<DistanceEntry>)
    requires AscendingByDistance(r)
    requires forall k :: 0 <= k < |r| ==> h.distance <= r[k].distance
    ensures AscendingByDistance([h] + r)
  {
    forall i, j | 0 <= i < j < |[h] + r|
      ensures ([h] + r)[i].distance <= ([h] + r)[j].distance
    {
      if i > 0 {
        assert ([h] + r)[i] == r[i - 1];
      }
      assert ([h] + r)[j] == r[j - 1];
    }
  }

  lemma {:induction false} InsertByDistanceSorts(x: DistanceEntry, s: seq<DistanceEntry>)
    requires AscendingByDistance(s)
    ensures AscendingByDistance(InsertByDistance(x, s))
    decreases |s|
  {
    if s == [] || x.distance <= s[0].distance {
      ConsAscending(x, s);
    } else {
      var tail := s[1..];
      InsertByDistanceSorts(x, tail);
      InsertByDistancePermutes(x, tail);
      var r := InsertByDistance(x, tail);
      forall k | 0 <= k < |r|
        ensures s[0].distance <= r[k].distance
      {
        assert r[k] in multiset(r);
        if r[k] != x {
          assert r[k] in multiset(tail);
          var m :| 0 <= m < |tail| && tail[m] == r[k];
          assert s[m + 1] == tail[m];
        }
      }
      ConsAscending(s[0], r);
    }
  }

  /** The sort orders by ascending distance and is a permutation of the table. */
  lemma {:induction false} SortByDistanceSpec(s: seq<DistanceEntry>)
    ensures AscendingByDistance(SortByDistance(s))
    ensures multiset(SortByDistance(s)) == multiset(s)
    decreases |s|
  {
    if s != [] {
      SortByDistanceSpec(s[1..]);
      InsertByDistanceSorts(s[0], SortByDistance(s[1..]));
      InsertByDistancePermutes(s[0], SortByDistance(s[1..]));
      assert s == [s[0]] + s[1..];
    }
  }

  /** In an ascending table, every entry strictly closer than position d comes before it. */
  lemma {:induction false} CloserComesFirst(s: seq<DistanceEntry>, d: nat, e: DistanceEntry)
    requires AscendingByDistance(s) && d < |s|
    requires e in s && e.distance < s[d].distance
    ensures e in s[..d]
  {
    var m :| 0 <= m < |s| && s[m] == e;
    assert m < d;
    assert s[..d][m] == e;
  }
}
