/**
 * What one call of BoundingBox::updateCentroids does to the tracker state,
 * as a function of the state before it, and the properties of that step:
 * centroid ids stay increasing, every box of a frame ends up tracked, boxes
 * only ever gain a tracking id, new centroids get consecutive ids, and the
 * greedy matching pairs the closest available centroid and box first.
 */
module BoxTracker {
  import opened Base
  import opened BoxTypes
  import opened BoxTracking
  import opened BoxMatching

  /** max_centroids_num: the most boxes, and the most surviving centroids, a frame is tracked with. */
  const MAX_CENTROIDS_NUM: nat := 100

  /** consecutive_disappear_threshold: a centroid unmatched this many frames in a row is dropped. */
  const CONSECUTIVE_DISAPPEAR_THRESHOLD: nat := 100

  /** The centroids, the last id handed out, and the boxes of the current frame. */
  datatype TrackState = TrackState(centroids: seq<Centroid>, lastId: nat, boxes: seq<DetectedObject>)

  /** Centroid ids are positive, at most the last id handed out, and increase along the list. */
  predicate IdsValid(cs: seq<Centroid>, lastId: nat) {
    (forall k :: 0 <= k < |cs| ==> 0 < cs[k].id <= lastId)
    && (forall i, j :: 0 <= i < j < |cs| ==> cs[i].id < cs[j].id)
  }

  /** Every centroid with a non-zero id has disappeared for one more frame. */
  function CountDisappeared(cs: seq<Centroid>): (r: seq<Centroid>) {
    seq(|cs|, k requires 0 <= k < |cs| => if cs[k].id > 0 then cs[k].(cdf := cs[k].cdf + 1) else cs[k])
  }

  /** Every centroid forgets the box it was matched with. */
  function ResetMatches(cs: seq<Centroid>): (r: seq<Centroid>) {
    seq(|cs|, k requires 0 <= k < |cs| => cs[k].(matched := None))
  }

  /** Every centroid with a non-zero id that found no box has disappeared for one more frame. */
  function IncrementUnmatched(cs: seq<Centroid>): (r: seq<Centroid>) {
    seq(|cs|, k requires 0 <= k < |cs| =>
      if cs[k].id != 0 && cs[k].matched.None? then cs[k].(cdf := cs[k].cdf + 1) else cs[k])
  }

  /**
   * Boxes 0 .. n - 1 registered as new centroids in order, each taking the
   * next id, which the box then carries. With `onlyUntracked` a box that
   * already carries a tracking id is passed over.
   */
  function RegisterPrefix(s: TrackState, onlyUntracked: bool, n: nat): (r: TrackState)
    requires n <= |s.boxes|
    ensures |r.boxes| == |s.boxes|
    decreases n
  {
    if n == 0 then s
    else
      var g := RegisterPrefix(s, onlyUntracked, n - 1);
      var b := n - 1;
      if onlyUntracked && g.boxes[b].trackingId != 0 then g
      else
        var id := g.lastId + 1;
        TrackState(g.centroids + [NewCentroid(id, g.boxes[b], b)], id, g.boxes[b := g.boxes[b].(trackingId := id)])
  }

  /** The start of the greedy walk: the survivors with their matches reset, and the boxes. */
  function WalkStart(cs: seq<Centroid>, boxes: seq<DetectedObject>): Matching {
    Matching(ResetMatches(cs), boxes)
  }

  /** The greedy walk over the whole sorted distance table. */
  function GreedyMatch(cs: seq<Centroid>, boxes: seq<DetectedObject>): (m: Matching)
    ensures |m.centroids| == |cs| && |m.boxes| == |boxes|
  {
    var m0 := WalkStart(cs, boxes);
    var sorted := SortedTable(m0.centroids, m0.boxes);
    SortedTableFor(m0.centroids, m0.boxes);
    TableEntriesFit(sorted, m0);
    MatchPrefix(m0, sorted, |sorted|)
  }

  /** One call of updateCentroids on the state `s`. */
  function UpdateCentroids(s: TrackState): (r: TrackState) {
    if |s.boxes| > MAX_CENTROIDS_NUM then s
    else
      var cs := Survivors(s.centroids, CONSECUTIVE_DISAPPEAR_THRESHOLD);
      if |cs| > MAX_CENTROIDS_NUM then s.(centroids := cs)
      else if |s.boxes| == 0 then s.(centroids := CountDisappeared(cs))
      else if |cs| == 0 then RegisterPrefix(s.(centroids := cs), false, |s.boxes|)
      else
        var m := GreedyMatch(cs, s.boxes);
        RegisterPrefix(TrackState(IncrementUnmatched(m.centroids), s.lastId, m.boxes), true, |s.boxes|)
  }

  /** The frame is tracked: within the limits and with at least one box. */
  predicate Tracked(s: TrackState) {
    0 < |s.boxes| <= MAX_CENTROIDS_NUM
    && |Survivors(s.centroids, CONSECUTIVE_DISAPPEAR_THRESHOLD)| <= MAX_CENTROIDS_NUM
  }

  // ---------------------------------------------------------------------
  // Survivors keep the id order

  /** Dropping centroids keeps the ids valid. */
  lemma {:induction false} SurvivorsIdsValid(cs: seq<Centroid>, threshold: nat, lastId: nat)
    requires IdsValid(cs, lastId)
    ensures IdsValid(Survivors(cs, threshold), lastId)
    decreases |cs|
  {
    if cs != [] {
      var tail := cs[1..];
      IdsValidTail(cs, lastId);
      SurvivorsIdsValid(tail, threshold, lastId);
      var rest := Survivors(tail, threshold);
      if cs[0].cdf < threshold {
        forall k | 0 <= k < |rest| ensures cs[0].id < rest[k].id {
          SurvivorsMembers(tail, threshold, rest[k]);
          var m :| 0 <= m < |tail| && tail[m] == rest[k];
          assert cs[m + 1] == rest[k];
        }
        IdsValidCons(cs[0], rest, lastId);
      } else {
        assert Survivors(cs, threshold) == [] + rest;
      }
    }
  }

  lemma {:induction false} IdsValidTail(cs: seq<Centroid>, lastId: nat)
    requires cs != [] && IdsValid(cs, lastId)
    ensures IdsValid(cs[1..], lastId)
  {
    var tail := cs[1..];
    forall i, j | 0 <= i < j < |tail| ensures tail[i].id < tail[j].id {
      assert tail[i] == cs[i + 1] && tail[j] == cs[j + 1];
    }
  }

  lemma {:induction false} IdsValidCons(c: Centroid, rest: seq<Centroid>, lastId: nat)
    requires 0 < c.id <= lastId && IdsValid(rest, lastId)
    requires forall k :: 0 <= k < |rest| ==> c.id < rest[k].id
    ensures IdsValid([c] + rest, lastId)
  {
    var all := [c] + rest;
    forall i, j | 0 <= i < j < |all| ensures all[i].id < all[j].id {
      assert all[j] == rest[j - 1];
      if i > 0 {
        assert all[i] == rest[i - 1];
      }
    }
  }


  // ---------------------------------------------------------------------
  // Registering boxes

  /**
   * Registering keeps the old centroids in front, appends centroids whose
   * ids continue from the last id, and gives every registered box the id of
   * its centroid; only tracking ids of boxes change.
   */
  lemma {:induction false} RegisterPrefixSpec(s: TrackState, onlyUntracked: bool, n: nat)
    requires n <= |s.boxes|
    ensures var r := RegisterPrefix(s, onlyUntracked, n);
      && |s.centroids| <= |r.centroids|
      && r.centroids[..|s.centroids|] == s.centroids
      && r.lastId == s.lastId + (|r.centroids| - |s.centroids|)
      && (forall t :: |s.centroids| <= t < |r.centroids| ==>
            var c := r.centroids[t];
            c.id == s.lastId + 1 + (t - |s.centroids|) && c.cdf == 0 && c.matched.Some?
            && c.matched.value < n && r.boxes[c.matched.value].trackingId == c.id
            && c.cx == CenterX(s.boxes[c.matched.value]) && c.cy == CenterY(s.boxes[c.matched.value]))
      && (forall b :: 0 <= b < |s.boxes| ==> r.boxes[b] == s.boxes[b].(trackingId := r.boxes[b].trackingId))
      && (forall b :: n <= b < |s.boxes| ==> r.boxes[b] == s.boxes[b])
      && (forall b :: 0 <= b < n ==>
            if onlyUntracked && s.boxes[b].trackingId != 0 then r.boxes[b] == s.boxes[b]
            else s.lastId < r.boxes[b].trackingId <= r.lastId)
    decreases n
  {
    if n > 0 {
      RegisterPrefixSpec(s, onlyUntracked, n - 1);
      var g := RegisterPrefix(s, onlyUntracked, n - 1);
      var r := RegisterPrefix(s, onlyUntracked, n);
      var b := n - 1;
      if !(onlyUntracked && g.boxes[b].trackingId != 0) {
        var id := g.lastId + 1;
        assert r.centroids == g.centroids + [NewCentroid(id, g.boxes[b], b)];
        assert r.boxes == g.boxes[b := g.boxes[b].(trackingId := id)];
        assert r.centroids[..|s.centroids|] == g.centroids[..|s.centroids|];
        assert g.boxes[b] == s.boxes[b];
        forall t | |s.centroids| <= t < |r.centroids|
          ensures var c := r.centroids[t];
            c.id == s.lastId + 1 + (t - |s.centroids|) && c.cdf == 0 && c.matched.Some?
            && c.matched.value < n && r.boxes[c.matched.value].trackingId == c.id
            && c.cx == CenterX(s.boxes[c.matched.value]) && c.cy == CenterY(s.boxes[c.matched.value])
        {
          if t < |g.centroids| {
            assert r.centroids[t] == g.centroids[t];
          }
        }
      }
    }
  }

  /** Registering a box per box leaves no box untracked. */
  lemma {:induction false} RegisterAllTracks(s: TrackState, onlyUntracked: bool)
    ensures var r := RegisterPrefix(s, onlyUntracked, |s.boxes|);
      forall b :: 0 <= b < |r.boxes| ==> r.boxes[b].trackingId != 0
  {
    RegisterPrefixSpec(s, onlyUntracked, |s.boxes|);
  }

  /** When every box already carries an id, registering only untracked boxes changes nothing. */
  lemma {:induction false} RegisterNothingNew(s: TrackState, n: nat)
    requires n <= |s.boxes|
    requires forall b :: 0 <= b < |s.boxes| ==> s.boxes[b].trackingId != 0
    ensures RegisterPrefix(s, true, n) == s
    decreases n
  {
    if n > 0 {
      RegisterNothingNew(s, n - 1);
    }
  }

  /** Registering keeps the ids valid. */
  lemma {:induction false} RegisterIdsValid(s: TrackState, onlyUntracked: bool, n: nat)
    requires n <= |s.boxes| && IdsValid(s.centroids, s.lastId)
    ensures var r := RegisterPrefix(s, onlyUntracked, n); IdsValid(r.centroids, r.lastId)
  {
    RegisterPrefixSpec(s, onlyUntracked, n);
    var r := RegisterPrefix(s, onlyUntracked, n);
    var old0 := |s.centroids|;
    forall k | 0 <= k < old0 ensures r.centroids[k] == s.centroids[k] {
      assert r.centroids[..old0][k] == r.centroids[k];
    }
  }

  // ---------------------------------------------------------------------
  // The counters and the matching

  lemma {:induction false} WalkStartFacts(cs: seq<Centroid>, boxes: seq<DetectedObject>)
    ensures var m0 := WalkStart(cs, boxes);
      NoneMatched(m0) && TableFor(SortedTable(m0.centroids, m0.boxes), m0.centroids, m0.boxes)
      && EntriesFit(SortedTable(m0.centroids, m0.boxes), m0)
  {
    var m0 := WalkStart(cs, boxes);
    SortedTableFor(m0.centroids, m0.boxes);
    TableEntriesFit(SortedTable(m0.centroids, m0.boxes), m0);
  }

  /** The greedy walk keeps its invariant over the whole table. */
  lemma {:induction false} GreedyMatchInvariant(cs: seq<Centroid>, boxes: seq<DetectedObject>)
    ensures var m0 := WalkStart(cs, boxes);
      WalkInvariant(m0, SortedTable(m0.centroids, m0.boxes), |m0.centroids| * |m0.boxes|, GreedyMatch(cs, boxes))
  {
    var m0 := WalkStart(cs, boxes);
    WalkStartFacts(cs, boxes);
    MatchPrefixInvariant(m0, SortedTable(m0.centroids, m0.boxes), |m0.centroids| * |m0.boxes|);
  }

  /**
   * The greedy walk only sets matches, counters and tracking ids; a matched
   * centroid has a counter of 0 and its box, untracked before, carries its
   * id; an unmatched centroid keeps its counter; a box that was tracked keeps
   * its id.
   */
  lemma {:induction false} GreedyMatchSound(cs: seq<Centroid>, boxes: seq<DetectedObject>)
    ensures var m := GreedyMatch(cs, boxes);
      && (forall k :: 0 <= k < |cs| ==>
            m.centroids[k].id == cs[k].id && m.centroids[k].cx == cs[k].cx && m.centroids[k].cy == cs[k].cy)
      && (forall k :: 0 <= k < |cs| ==>
            match m.centroids[k].matched
            case None => m.centroids[k].cdf == cs[k].cdf
            case Some(b) => b < |boxes| && m.centroids[k].cdf == 0 && cs[k].id != 0
                            && boxes[b].trackingId == 0 && m.boxes[b].trackingId == cs[k].id)
      && (forall b :: 0 <= b < |boxes| ==> m.boxes[b] == boxes[b].(trackingId := m.boxes[b].trackingId))
      && (forall b :: 0 <= b < |boxes| && boxes[b].trackingId != 0 ==> m.boxes[b] == boxes[b])
  {
    GreedyMatchInvariant(cs, boxes);
    var m0 := WalkStart(cs, boxes);
    var m := GreedyMatch(cs, boxes);
    forall k | 0 <= k < |cs|
      ensures m.centroids[k].id == cs[k].id && m.centroids[k].cx == cs[k].cx && m.centroids[k].cy == cs[k].cy
    {
      assert m0.centroids[k] == cs[k].(matched := None);
    }
    forall k | 0 <= k < |cs|
      ensures match m.centroids[k].matched
            case None => m.centroids[k].cdf == cs[k].cdf
            case Some(b) => b < |boxes| && m.centroids[k].cdf == 0 && cs[k].id != 0
                            && boxes[b].trackingId == 0 && m.boxes[b].trackingId == cs[k].id
    {
      assert m0.centroids[k] == cs[k].(matched := None);
    }
  }

  /**
   * The walk is greedy: a matched centroid's strictly closer boxes were all
   * taken, and a matched box's strictly closer centroids with a non-zero id
   * were all matched.
   */
  lemma {:induction false} GreedyMatchClosestFirst(cs: seq<Centroid>, boxes: seq<DetectedObject>)
    ensures var m := GreedyMatch(cs, boxes);
      && (forall k, b :: 0 <= k < |cs| && 0 <= b < |boxes| && m.centroids[k].matched.Some?
            && m.centroids[k].matched.value < |boxes|
            && PairDistance(cs[k], boxes[b]) < PairDistance(cs[k], boxes[m.centroids[k].matched.value])
            ==> m.boxes[b].trackingId != 0)
      && (forall k, k2 :: 0 <= k < |cs| && 0 <= k2 < |cs| && m.centroids[k].matched.Some?
            && m.centroids[k].matched.value < |boxes| && cs[k2].id != 0
            && PairDistance(cs[k2], boxes[m.centroids[k].matched.value])
               < PairDistance(cs[k], boxes[m.centroids[k].matched.value])
            ==> m.centroids[k2].matched.Some?)
  {
    GreedyMatchInvariant(cs, boxes);
    var m0 := WalkStart(cs, boxes);
    forall k, b | 0 <= k < |cs| && 0 <= b < |boxes|
      ensures PairDistance(m0.centroids[k], m0.boxes[b]) == PairDistance(cs[k], boxes[b])
    {
      assert m0.centroids[k] == cs[k].(matched := None);
    }
  }

  /** After the walk, a centroid with a non-zero id is matched or every box is tracked. */
  lemma {:induction false} GreedyMatchMaximal(cs: seq<Centroid>, boxes: seq<DetectedObject>)
    ensures var m := GreedyMatch(cs, boxes);
      forall k, b :: 0 <= k < |cs| && 0 <= b < |boxes| && cs[k].id != 0 ==>
        m.centroids[k].matched.Some? || m.boxes[b].trackingId != 0
  {
    var m0 := WalkStart(cs, boxes);
    WalkStartFacts(cs, boxes);
    var sorted := SortedTable(m0.centroids, m0.boxes);
    MatchWalkMaximal(m0, sorted);
    assert GreedyMatch(cs, boxes) == MatchPrefix(m0, sorted, |sorted|);
    GreedyMatchSound(cs, boxes);
  }

  // ---------------------------------------------------------------------
  // Properties of one update

  /** The update keeps the ids valid. */
  lemma {:induction false} UpdateIdsValid(s: TrackState)
    requires IdsValid(s.centroids, s.lastId)
    ensures var r := UpdateCentroids(s); IdsValid(r.centroids, r.lastId)
  {
    var cs := Survivors(s.centroids, CONSECUTIVE_DISAPPEAR_THRESHOLD);
    SurvivorsIdsValid(s.centroids, CONSECUTIVE_DISAPPEAR_THRESHOLD, s.lastId);
    if |s.boxes| > MAX_CENTROIDS_NUM || |cs| > MAX_CENTROIDS_NUM || |s.boxes| == 0 {
    } else if |cs| == 0 {
      RegisterIdsValid(s.(centroids := cs), false, |s.boxes|);
    } else {
      var m := GreedyMatch(cs, s.boxes);
      GreedyMatchSound(cs, s.boxes);
      var start := TrackState(IncrementUnmatched(m.centroids), s.lastId, m.boxes);
      assert IdsValid(start.centroids, start.lastId);
      RegisterIdsValid(start, true, |s.boxes|);
    }
  }

  /** A tracked frame leaves every box with a tracking id. */
  lemma {:induction false} UpdateTracksEveryBox(s: TrackState)
    requires Tracked(s)
    ensures var r := UpdateCentroids(s);
      |r.boxes| == |s.boxes| && forall b :: 0 <= b < |r.boxes| ==> r.boxes[b].trackingId != 0
  {
    var cs := Survivors(s.centroids, CONSECUTIVE_DISAPPEAR_THRESHOLD);
    if |cs| == 0 {
      RegisterAllTracks(s.(centroids := cs), false);
      assert UpdateCentroids(s) == RegisterPrefix(s.(centroids := cs), false, |s.boxes|);
    } else {
      var m := GreedyMatch(cs, s.boxes);
      var start := TrackState(IncrementUnmatched(m.centroids), s.lastId, m.boxes);
      RegisterAllTracks(start, true);
      assert UpdateCentroids(s) == RegisterPrefix(start, true, |start.boxes|);
    }
  }

  /**
   * Boxes only gain tracking ids: every other field is kept, a box that
   * carried an id keeps it unless the frame starts the tracker afresh, and
   * a frame that is not tracked leaves the boxes alone.
   */
  lemma {:induction false} UpdateBoxesOnlyGainIds(s: TrackState)
    ensures var r := UpdateCentroids(s);
      && |r.boxes| == |s.boxes|
      && (forall b :: 0 <= b < |s.boxes| ==> r.boxes[b] == s.boxes[b].(trackingId := r.boxes[b].trackingId))
      && (!Tracked(s) ==> r.boxes == s.boxes)
      && (Survivors(s.centroids, CONSECUTIVE_DISAPPEAR_THRESHOLD) != [] ==>
            forall b :: 0 <= b < |s.boxes| && s.boxes[b].trackingId != 0 ==> r.boxes[b] == s.boxes[b])
  {
    var cs := Survivors(s.centroids, CONSECUTIVE_DISAPPEAR_THRESHOLD);
    if |s.boxes| > MAX_CENTROIDS_NUM || |cs| > MAX_CENTROIDS_NUM || |s.boxes| == 0 {
    } else if |cs| == 0 {
      RegisterPrefixSpec(s.(centroids := cs), false, |s.boxes|);
    } else {
      var m := GreedyMatch(cs, s.boxes);
      GreedyMatchSound(cs, s.boxes);
      RegisterPrefixSpec(TrackState(IncrementUnmatched(m.centroids), s.lastId, m.boxes), true, |s.boxes|);
    }
  }

  /**
   * New centroids come after the surviving ones, take the ids following the
   * last id in order, start with a counter of 0 and sit at the centre of the
   * box they were registered for, which carries their id; the last id grows
   * by the number of new centroids.
   */
  lemma {:induction false} UpdateNewCentroids(s: TrackState)
    requires Tracked(s)
    ensures var cs := Survivors(s.centroids, CONSECUTIVE_DISAPPEAR_THRESHOLD);
      var r := UpdateCentroids(s);
      && |cs| <= |r.centroids|
      && r.lastId == s.lastId + (|r.centroids| - |cs|)
      && (forall t :: |cs| <= t < |r.centroids| ==>
            var c := r.centroids[t];
            c.id == s.lastId + 1 + (t - |cs|) && c.cdf == 0 && c.matched.Some?
            && c.matched.value < |s.boxes| && r.boxes[c.matched.value].trackingId == c.id
            && c.cx == CenterX(s.boxes[c.matched.value]) && c.cy == CenterY(s.boxes[c.matched.value]))
  {
    var cs := Survivors(s.centroids, CONSECUTIVE_DISAPPEAR_THRESHOLD);
    if |cs| == 0 {
      RegisterPrefixSpec(s.(centroids := cs), false, |s.boxes|);
    } else {
      var m := GreedyMatch(cs, s.boxes);
      GreedyMatchSound(cs, s.boxes);
      var start := TrackState(IncrementUnmatched(m.centroids), s.lastId, m.boxes);
      RegisterPrefixSpec(start, true, |s.boxes|);
      var r := UpdateCentroids(s);
      forall t | |cs| <= t < |r.centroids|
        ensures CenterX(start.boxes[r.centroids[t].matched.value]) == CenterX(s.boxes[r.centroids[t].matched.value])
        ensures CenterY(start.boxes[r.centroids[t].matched.value]) == CenterY(s.boxes[r.centroids[t].matched.value])
      {
      }
    }
  }

  /**
   * The counters of the surviving centroids: with no box every one with a
   * non-zero id counts one more frame; in a tracked frame a matched one
   * restarts at 0 and its box carries its id, and an unmatched one counts
   * one more frame.
   */
  lemma {:induction false} UpdateSurvivorCounters(s: TrackState)
    requires |s.boxes| <= MAX_CENTROIDS_NUM
    requires |Survivors(s.centroids, CONSECUTIVE_DISAPPEAR_THRESHOLD)| <= MAX_CENTROIDS_NUM
    ensures var cs := Survivors(s.centroids, CONSECUTIVE_DISAPPEAR_THRESHOLD);
      var r := UpdateCentroids(s);
      && |cs| <= |r.centroids|
      && (forall k :: 0 <= k < |cs| ==> r.centroids[k].id == cs[k].id && cs[k].cdf < CONSECUTIVE_DISAPPEAR_THRESHOLD)
      && (|s.boxes| == 0 ==> forall k :: 0 <= k < |cs| ==>
            r.centroids[k].cdf == if cs[k].id > 0 then cs[k].cdf + 1 else cs[k].cdf)
      && (|s.boxes| > 0 ==> forall k :: 0 <= k < |cs| ==>
            match r.centroids[k].matched
            case Some(b) => r.centroids[k].cdf == 0 && b < |s.boxes| && s.boxes[b].trackingId == 0
                            && r.boxes[b].trackingId == cs[k].id
            case None => r.centroids[k].cdf == if cs[k].id != 0 then cs[k].cdf + 1 else cs[k].cdf)
  {
    var cs := Survivors(s.centroids, CONSECUTIVE_DISAPPEAR_THRESHOLD);
    forall k | 0 <= k < |cs| ensures cs[k].cdf < CONSECUTIVE_DISAPPEAR_THRESHOLD {
      SurvivorsMembers(s.centroids, CONSECUTIVE_DISAPPEAR_THRESHOLD, cs[k]);
    }
    if |s.boxes| > 0 && |cs| > 0 {
      TrackedCounters(s, cs);
    }
  }

  /** In a tracked frame with survivors, the survivors keep their places and get their counters from the match. */
  lemma {:induction false} TrackedCounters(s: TrackState, cs: seq<Centroid>)
    requires 0 < |s.boxes| <= MAX_CENTROIDS_NUM
    requires cs == Survivors(s.centroids, CONSECUTIVE_DISAPPEAR_THRESHOLD) && 0 < |cs| <= MAX_CENTROIDS_NUM
    ensures var r := UpdateCentroids(s);
      && |cs| <= |r.centroids|
      && forall k :: 0 <= k < |cs| ==>
            && r.centroids[k].id == cs[k].id
            && match r.centroids[k].matched
               case Some(b) => r.centroids[k].cdf == 0 && b < |s.boxes| && s.boxes[b].trackingId == 0
                               && r.boxes[b].trackingId == cs[k].id
               case None => r.centroids[k].cdf == if cs[k].id != 0 then cs[k].cdf + 1 else cs[k].cdf
  {
    var m := GreedyMatch(cs, s.boxes);
    GreedyMatchSound(cs, s.boxes);
    var start := TrackState(IncrementUnmatched(m.centroids), s.lastId, m.boxes);
    RegisterPrefixSpec(start, true, |s.boxes|);
    var r := UpdateCentroids(s);
    assert r == RegisterPrefix(start, true, |s.boxes|);
    forall k | 0 <= k < |cs| ensures r.centroids[k] == start.centroids[k] {
      assert r.centroids[..|cs|][k] == r.centroids[k];
    }
  }


  /**
   * If a surviving centroid with a non-zero id stays unmatched in a tracked
   * frame, every box was claimed by a centroid, so no new centroid is
   * registered.
   */
  lemma {:induction false} UpdateUnmatchedMeansNoNewCentroids(s: TrackState, k: nat)
    requires Tracked(s)
    requires var cs := Survivors(s.centroids, CONSECUTIVE_DISAPPEAR_THRESHOLD);
      k < |cs| && cs[k].id != 0
    requires k < |UpdateCentroids(s).centroids| && UpdateCentroids(s).centroids[k].matched.None?
    ensures UpdateCentroids(s).lastId == s.lastId
    ensures |UpdateCentroids(s).centroids| == |Survivors(s.centroids, CONSECUTIVE_DISAPPEAR_THRESHOLD)|
  {
    var cs := Survivors(s.centroids, CONSECUTIVE_DISAPPEAR_THRESHOLD);
    var m := GreedyMatch(cs, s.boxes);
    GreedyMatchSound(cs, s.boxes);
    var start := TrackState(IncrementUnmatched(m.centroids), s.lastId, m.boxes);
    RegisterPrefixSpec(start, true, |s.boxes|);
    var r := UpdateCentroids(s);
    assert r.centroids[..|cs|][k] == r.centroids[k];
    assert m.centroids[k].matched.None?;
    GreedyMatchMaximal(cs, s.boxes);
    RegisterNothingNew(start, |s.boxes|);
  }
}
