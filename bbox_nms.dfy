/**
 * Non-maximum suppression of the bounding-box decoder. The overlap measure
 * (intersection over union, or its rotated-box variant) works on floating
 * point geometry and is taken as a given function of two objects.
 */
module BoxNms {
  import opened BoxTypes

  /** The overlap nms compares against the threshold: iou_obb for oriented boxes, iou otherwise. */
  function Overlap(mode: BoxMode, iou: (DetectedObject, DetectedObject) -> real,
                   iouObb: (DetectedObject, DetectedObject) -> real,
                   a: DetectedObject, b: DetectedObject): real
  {
    if mode == Yolov8Oriented then iouObb(a, b) else iou(a, b)
  }

  predicate DescendingByProb(s: seq<DetectedObject>) {
    forall i, j :: 0 <= i < j < |s| ==> s[i].prob >= s[j].prob
  }

  /**
   * Inserts x in front of the first element whose prob is not larger, so an
   * element keeps its place relative to equal ones met later.
   */
  function InsertByProb(x: DetectedObject, s: seq<DetectedObject>): (r: seq<DetectedObject>)
    ensures |r| == |s| + 1
    decreases |s|
  {
    if s == [] || x.prob >= s[0].prob then [x] + s
    else [s[0]] + InsertByProb(x, s[1..])
  }

  /** g_array_sort with compare_detection: larger prob first, equal ones in their input order. */
  function SortByProb(s: seq<DetectedObject>): (r: seq<DetectedObject>)
    ensures |r| == |s|
    decreases |s|
  {
    if s == [] then [] else InsertByProb(s[0], SortByProb(s[1..]))
  }

  lemma {:induction false} InsertByProbPermutes(x: DetectedObject, s: seq<DetectedObject>)
    ensures multiset(InsertByProb(x, s)) == multiset(s) + multiset{x}
    decreases |s|
  {
    if !(s == [] || x.prob >= s[0].prob) {
      InsertByProbPermutes(x, s[1..]);
      assert s == [s[0]] + s[1..];
    }
  }

  lemma {:induction false} ConsDescending(h: DetectedObject, r: seq<DetectedObject>)
    requires DescendingByProb(r)
    requires forall k :: 0 <= k < |r| ==> h.prob >= r[k].prob
    ensures DescendingByProb([h] + r)
  {
    forall i, j | 0 <= i < j < |[h] + r|
      ensures ([h] + r)[i].prob >= ([h] + r)[j].prob
    {
      if i > 0 {
        assert ([h] + r)[i] == r[i - 1];
      }
      assert ([h] + r)[j] == r[j - 1];
    }
  }

  lemma {:induction false} InsertByProbSorts(x: DetectedObject, s: seq<DetectedObject>)
    requires DescendingByProb(s)
    ensures DescendingByProb(InsertByProb(x, s))
    decreases |s|
  {
    if s == [] || x.prob >= s[0].prob {
      ConsDescending(x, s);
    } else {
      var tail := s[1..];
      InsertByProbSorts(x, tail);
      InsertByProbPermutes(x, tail);
      var r := InsertByProb(x, tail);
      forall k | 0 <= k < |r|
        ensures s[0].prob >= r[k].prob
      {
        assert r[k] in multiset(r);
        if r[k] != x {
          assert r[k] in multiset(tail);
          var m :| 0 <= m < |tail| && tail[m] == r[k];
          assert s[m + 1] == tail[m];
        }
      }
      ConsDescending(s[0], r);
    }
  }

  /** The sort orders by descending prob and is a permutation of its input. */
  lemma {:induction false} SortByProbSpec(s: seq<DetectedObject>)
    ensures DescendingByProb(SortByProb(s))
    ensures multiset(SortByProb(s)) == multiset(s)
    decreases |s|
  {
    if s != [] {
      SortByProbSpec(s[1..]);
      InsertByProbSorts(s[0], SortByProb(s[1..]));
      InsertByProbPermutes(s[0], SortByProb(s[1..]));
      assert s == [s[0]] + s[1..];
    }
  }

  /**
   * The inner loop of nms for a valid object at position i: every later
   * valid object that overlaps it by more than the threshold is marked
   * invalid. Objects still valid in `list` are the sorted objects themselves.
   */
  method SuppressAfter(list: seq<DetectedObject>, i: nat, sorted: seq<DetectedObject>,
                       threshold: real, mode: BoxMode,
                       iou: (DetectedObject, DetectedObject) -> real,
                       iouObb: (DetectedObject, DetectedObject) -> real)
    returns (r: seq<DetectedObject>)
    requires |list| == |sorted| && i < |list| && list[i].valid
    requires forall k :: 0 <= k < |list| ==> list[k] == sorted[k].(valid := list[k].valid)
    requires forall k :: 0 <= k < |list| && list[k].valid ==> sorted[k].valid
    ensures |r| == |list|
    ensures forall k :: 0 <= k < |r| ==> r[k] == sorted[k].(valid := r[k].valid)
    ensures forall k :: 0 <= k < |r| && r[k].valid ==> list[k].valid
    ensures forall k :: 0 <= k <= i ==> r[k] == list[k]
    ensures forall b :: i < b < |r| && r[b].valid ==>
      Overlap(mode, iou, iouObb, sorted[i], sorted[b]) <= threshold
    ensures forall k :: 0 <= k < |r| && list[k].valid && !r[k].valid ==>
      i < k && Overlap(mode, iou, iouObb, sorted[i], sorted[k]) > threshold
  {
    var n := |list|;
    r := list;
    for j := i + 1 to n
      invariant |r| == n
      invariant forall k :: 0 <= k < n ==> r[k] == sorted[k].(valid := r[k].valid)
      invariant forall k :: 0 <= k < n && r[k].valid ==> list[k].valid
      invariant forall k :: 0 <= k <= i || j <= k < n ==> r[k] == list[k]
      invariant forall b :: i < b < j && r[b].valid ==>
        Overlap(mode, iou, iouObb, sorted[i], sorted[b]) <= threshold
      invariant forall k :: 0 <= k < n && list[k].valid && !r[k].valid ==>
        i < k && Overlap(mode, iou, iouObb, sorted[i], sorted[k]) > threshold
    {
      if r[j].valid {
        assert r[i] == sorted[i] && r[j] == sorted[j];
        if Overlap(mode, iou, iouObb, r[i], r[j]) > threshold {
          r := r[j := r[j].(valid := false)];
        }
      }
    }
  }

  /**
   * The marking phase of nms over the sorted list: afterwards no two valid
   * objects overlap by more than the threshold, and every object that lost
   * its validity overlaps an earlier valid one by more than the threshold.
   */
  method MarkSuppressed(sorted: seq<DetectedObject>, threshold: real, mode: BoxMode,
                        iou: (DetectedObject, DetectedObject) -> real,
                        iouObb: (DetectedObject, DetectedObject) -> real)
    returns (list: seq<DetectedObject>)
    ensures |list| == |sorted|
    ensures forall k :: 0 <= k < |list| ==> list[k] == sorted[k].(valid := list[k].valid)
    ensures forall k :: 0 <= k < |list| && list[k].valid ==> sorted[k].valid
    ensures forall a, b :: 0 <= a < b < |list| && list[a].valid && list[b].valid ==>
      Overlap(mode, iou, iouObb, sorted[a], sorted[b]) <= threshold
    ensures forall k :: 0 <= k < |list| && sorted[k].valid && !list[k].valid ==>
      exists a :: 0 <= a < k && list[a].valid &&
        Overlap(mode, iou, iouObb, sorted[a], sorted[k]) > threshold
  {
    var n := |sorted|;
    list := sorted;
    for i := 0 to n
      invariant |list| == n
      invariant forall k :: 0 <= k < n ==> list[k] == sorted[k].(valid := list[k].valid)
      invariant forall k :: 0 <= k < n && list[k].valid ==> sorted[k].valid
      invariant forall a, b :: 0 <= a < i && a < b < n && list[a].valid && list[b].valid ==>
        Overlap(mode, iou, iouObb, sorted[a], sorted[b]) <= threshold
      invariant forall k :: 0 <= k < n && sorted[k].valid && !list[k].valid ==>
        exists a :: 0 <= a < i && a < k && list[a].valid &&
          Overlap(mode, iou, iouObb, sorted[a], sorted[k]) > threshold
    {
      if list[i].valid {
        ghost var before := list;
        list := SuppressAfter(list, i, sorted, threshold, mode, iou, iouObb);
        forall k | 0 <= k < n && sorted[k].valid && !list[k].valid
          ensures exists a :: (0 <= a < i + 1 && a < k && list[a].valid &&
            Overlap(mode, iou, iouObb, sorted[a], sorted[k]) > threshold)
        {
          if before[k].valid {
            assert list[i] == before[i];
          } else {
            var a :| 0 <= a < i && a < k && before[a].valid &&
              Overlap(mode, iou, iouObb, sorted[a], sorted[k]) > threshold;
            assert list[a] == before[a];
          }
        }
      }
    }
  }

  /**
   * The removal phase of nms: drops the invalid objects in place, keeping
   * the order of the others. `picks` gives the original position of each
   * object kept.
   */
  method RemoveInvalid(list: seq<DetectedObject>) returns (kept: seq<DetectedObject>, ghost picks: seq<nat>)
    requires |list| >= 1
    ensures |picks| == |kept|
    ensures forall t :: 0 <= t < |kept| ==> picks[t] < |list| && kept[t] == list[picks[t]] && kept[t].valid
    ensures forall t1, t2 :: 0 <= t1 < t2 < |picks| ==> picks[t1] < picks[t2]
    ensures forall k :: 0 <= k < |list| && list[k].valid ==> k in picks
  {
    var rest := list;
    var i := 0;
    ghost var off := 0;
    picks := [];
    while i < |rest|
      invariant 0 <= i <= |rest| && 0 <= off <= |list|
      invariant rest[i..] == list[off..]
      invariant |picks| == i
      invariant forall t :: 0 <= t < i ==> picks[t] < off && rest[t] == list[picks[t]] && list[picks[t]].valid
      invariant forall t1, t2 :: 0 <= t1 < t2 < i ==> picks[t1] < picks[t2]
      invariant forall k :: 0 <= k < off && list[k].valid ==> k in picks
      decreases |rest| - i
    {
      if !rest[i].valid {
        rest := rest[..i] + rest[i + 1..];
      } else {
        picks := picks + [off];
        i := i + 1;
      }
      off := off + 1;
    }
    kept := rest;
  }

  /**
   * nms: sorts by descending prob, clears `valid` on every still-valid
   * object that overlaps an earlier still-valid one by more than the
   * threshold, then removes the invalid objects. `picks` gives, for each
   * survivor, its position in the sorted list.
   */
  method Nms(results: seq<DetectedObject>, threshold: real, mode: BoxMode,
             iou: (DetectedObject, DetectedObject) -> real,
             iouObb: (DetectedObject, DetectedObject) -> real)
    returns (kept: seq<DetectedObject>, ghost picks: seq<nat>)
    ensures results == [] ==> kept == []
    ensures forall t :: 0 <= t < |kept| ==> kept[t].valid
    ensures DescendingByProb(kept)
    ensures forall t1, t2 :: 0 <= t1 < t2 < |kept| ==>
      Overlap(mode, iou, iouObb, kept[t1], kept[t2]) <= threshold
    ensures |picks| == |kept|
    ensures forall t :: 0 <= t < |picks| ==>
      picks[t] < |results| && kept[t] == SortByProb(results)[picks[t]]
    ensures forall t1, t2 :: 0 <= t1 < t2 < |picks| ==> picks[t1] < picks[t2]
    ensures forall k :: 0 <= k < |results| && SortByProb(results)[k].valid && k !in picks ==>
      exists t :: (0 <= t < |picks| && picks[t] < k &&
        Overlap(mode, iou, iouObb, kept[t], SortByProb(results)[k]) > threshold)
  {
    if |results| == 0 {
      return results, [];
    }
    var sorted := SortByProb(results);
    SortByProbSpec(results);
    var n := |sorted|;
    var list := MarkSuppressed(sorted, threshold, mode, iou, iouObb);
    kept, picks := RemoveInvalid(list);

    forall t | 0 <= t < |kept|
      ensures kept[t] == sorted[picks[t]]
    {
      assert list[picks[t]] == sorted[picks[t]].(valid := true);
    }
    forall k | 0 <= k < n && sorted[k].valid && k !in picks
      ensures exists t :: (0 <= t < |picks| && picks[t] < k &&
        Overlap(mode, iou, iouObb, kept[t], sorted[k]) > threshold)
    {
      var a :| 0 <= a < k && list[a].valid &&
        Overlap(mode, iou, iouObb, sorted[a], sorted[k]) > threshold;
      assert a in picks;
      var t :| 0 <= t < |picks| && picks[t] == a;
      assert kept[t] == sorted[a];
    }
  }
}
