/**
 * The BoundingBox decoder object: its option setters, the centroid tracker
 * as it updates its own tables and the boxes of a frame in place, and the
 * drawing of axis-aligned boxes into an RGBA frame of 32-bit pixels.
 */
module BoxDecoder {
  import opened Base
  import opened TensorTypes
  import opened BoxTypes
  import opened BoxOptions
  import opened BoxTracking
  import opened BoxMatching
  import opened BoxTracker
  import opened BoxDraw

  /** The option numbers of setOption; any other number is accepted and ignored. */
  datatype BoxOption =
    | ModeOption | LabelPathOption | InternalOption | VideoSizeOption
    | InputModelSizeOption | TrackOption | LogOption | OtherOption(number: int)

  /**
   * What the calls setOption makes into code outside the decoder return:
   * the box-properties table getProperties looks names up in, the number of
   * labels loadImageLabels leaves behind, what gst_tensor_parse_dimension
   * makes of the parameter, what the mode's own setOptionInternal answers,
   * and the number g_ascii_strtoll reads from the parameter.
   */
  datatype OptionEnv = OptionEnv(
    properties: map<string, BoxProperties>,
    loadedLabels: nat,
    rank: int,
    dims: seq<nat>,
    internalResult: bool,
    number: int)

  /** A parameter that is missing or empty. */
  predicate NoParam(param: Option<string>) {
    param.None? || param.value == ""
  }

  /** A coordinate of the model's input scaled to the output surface, rounded down. */
  function Scale(v: int, size: nat, input: nat): (s: int)
    requires input > 0
    ensures v >= 0 ==> s >= 0
  {
    (size * v) / input
  }

  /** The corners on the output surface of an axis-aligned box, as draw scales them. */
  function Corners(o: DetectedObject, width: nat, height: nat, iw: nat, ih: nat): (c: (int, int, int, int))
    requires iw > 0 && ih > 0
  {
    var x1 := Scale(o.x, width, iw);
    var x2 := Min(width - 1, Scale(o.x + o.width, width, iw));
    var y1 := Scale(o.y, height, ih);
    var y2 := Min(height - 1, Scale(o.y + o.height, height, ih));
    (x1, x2, y1, y2)
  }

  /**
   * A box draw can paint without leaving the frame: its coordinates and far
   * edges are not negative and its scaled top-left corner is inside the
   * frame.
   */
  predicate Drawable(o: DetectedObject, width: nat, height: nat, iw: nat, ih: nat)
    requires iw > 0 && ih > 0
  {
    0 <= o.x && 0 <= o.y && 0 <= o.x + o.width && 0 <= o.y + o.height
    && Corners(o, width, height, iw, ih).0 < width && Corners(o, width, height, iw, ih).2 < height
  }

  /** A drawable box's four corners all lie inside the frame. */
  lemma {:induction false} DrawableCornersInFrame(o: DetectedObject, width: nat, height: nat, iw: nat, ih: nat)
    requires iw > 0 && ih > 0 && Drawable(o, width, height, iw, ih)
    ensures var c := Corners(o, width, height, iw, ih);
      0 <= c.0 < width && 0 <= c.1 < width && 0 <= c.2 < height && 0 <= c.3 < height
  {
  }

  /** draw passes over an object whose class is outside the label table when labels are in use. */
  predicate SkipObject(o: DetectedObject, useLabel: bool, totalLabels: nat) {
    useLabel && (o.classId < 0 || o.classId >= totalLabels)
  }

  /** The pixels draw paints for the objects `results`, in frame-index form. */
  ghost function DrawnPixels(results: seq<DetectedObject>, useLabel: bool, totalLabels: nat,
                             width: nat, height: nat, iw: nat, ih: nat): set<int>
    requires iw > 0 && ih > 0
    decreases |results|
  {
    if results == [] then {}
    else
      var last := results[|results| - 1];
      var earlier := DrawnPixels(results[..|results| - 1], useLabel, totalLabels, width, height, iw, ih);
      if SkipObject(last, useLabel, totalLabels) then earlier
      else
        var c := Corners(last, width, height, iw, ih);
        earlier + Painted(BoxOutline(c.0, c.1, c.2, c.3), width, height)
  }

  /** Objects that differ only in their tracking ids are drawn alike. */
  lemma {:induction false} TrackingKeepsDrawable(before: seq<DetectedObject>, after: seq<DetectedObject>, useLabel: bool,
                              totalLabels: nat, width: nat, height: nat, iw: nat, ih: nat)
    requires iw > 0 && ih > 0 && |after| == |before|
    requires forall b :: 0 <= b < |before| ==> after[b] == before[b].(trackingId := after[b].trackingId)
    requires forall o :: o in before && !SkipObject(o, useLabel, totalLabels) ==> Drawable(o, width, height, iw, ih)
    ensures forall o :: o in after && !SkipObject(o, useLabel, totalLabels) ==> Drawable(o, width, height, iw, ih)
  {
    forall o | o in after && !SkipObject(o, useLabel, totalLabels) ensures Drawable(o, width, height, iw, ih) {
      var b :| 0 <= b < |after| && after[b] == o;
      assert before[b] in before;
    }
  }

  class BoundingBox {
    var mode: BoxMode
    var width: nat
    var height: nat
    var flagUseLabel: bool
    var doLog: int
    var isTrack: int
    var centroidsLastId: nat
    var centroids: seq<Centroid>
    var distanceArray: seq<DistanceEntry>
    var labelPath: Option<string>
    /** labeldata.total_labels */
    var totalLabels: nat
    /** The box properties of the chosen mode (a pointer into a shared table in the source). */
    var bdata: Option<BoxProperties>

    /** A decoder with no mode, no size, no labels, no tracking state. */
    constructor ()
      ensures mode == UnknownMode && width == 0 && height == 0 && !flagUseLabel
      ensures doLog == 0 && isTrack == 0 && centroidsLastId == 0
      ensures centroids == [] && distanceArray == []
      ensures labelPath == None && totalLabels == 0 && bdata == None
    {
      mode := UnknownMode;
      width := 0;
      height := 0;
      flagUseLabel := false;
      doLog := 0;
      isTrack := 0;
      centroidsLastId := 0;
      centroids := [];
      distanceArray := [];
      labelPath := None;
      totalLabels := 0;
      bdata := None;
    }

    // -------------------------------------------------------------------
    // Options

    /**
     * setBoxDecodingMode: a missing or empty name fails; otherwise the
     * deprecated names are mapped, the mode becomes the oriented one only
     * for "yolov8-obb", and the call succeeds when the properties table
     * knows the name.
     */
    method SetBoxDecodingMode(param: Option<string>, properties: map<string, BoxProperties>) returns (ok: bool)
      modifies this`mode, this`bdata
      ensures NoParam(param) ==> !ok && mode == old(mode) && bdata == old(bdata)
      ensures !NoParam(param) ==>
        var name := UpdateDecodingMode(param.value);
        && mode == (if name == "yolov8-obb" then Yolov8Oriented else old(mode))
        && bdata == (if name in properties then Some(properties[name]) else None)
        && ok == (name in properties)
    {
      if NoParam(param) {
        return false;
      }
      var name := UpdateDecodingMode(param.value);
      if name == "yolov8-obb" {
        mode := Yolov8Oriented;
      }
      bdata := if name in properties then Some(properties[name]) else None;
      ok := bdata.Some?;
    }

    /**
     * setLabelPath: nothing to do in palm-detection mode; otherwise the path
     * is replaced (labels load only from a present path) and the call
     * succeeds, passing the label count on to the mode's properties, exactly
     * when labels are loaded.
     */
    method SetLabelPath(param: Option<string>, loadedLabels: nat) returns (ok: bool)
      requires mode != MpPalmDetection && (if param.Some? then loadedLabels else totalLabels) > 0 ==> bdata.Some?
      modifies this`labelPath, this`totalLabels, this`bdata
      ensures old(mode) == MpPalmDetection ==>
        ok && labelPath == old(labelPath) && totalLabels == old(totalLabels) && bdata == old(bdata)
      ensures old(mode) != MpPalmDetection ==>
        && labelPath == param
        && totalLabels == (if param.Some? then loadedLabels else old(totalLabels))
        && ok == (totalLabels > 0)
        && bdata == (if ok then Some(old(bdata).value.(totalLabels := totalLabels)) else old(bdata))
    {
      if mode == MpPalmDetection {
        return true;
      }
      labelPath := param;
      if labelPath.Some? {
        totalLabels := loadedLabels;
      }
      if totalLabels > 0 {
        bdata := Some(bdata.value.(totalLabels := totalLabels));
        return true;
      }
      return false;
    }

    /**
     * setVideoSize: a missing or empty parameter changes nothing; otherwise
     * the size is cleared and, when at least two dimensions were parsed,
     * set from the first two. It always succeeds.
     */
    method SetVideoSize(param: Option<string>, rank: int, dims: seq<nat>) returns (ok: bool)
      requires |dims| == RANK_LIMIT
      modifies this`width, this`height
      ensures ok
      ensures NoParam(param) ==> width == old(width) && height == old(height)
      ensures !NoParam(param) && rank < 2 ==> width == 0 && height == 0
      ensures !NoParam(param) && rank >= 2 ==> width == dims[0] && height == dims[1]
    {
      if NoParam(param) {
        return true;
      }
      width := 0;
      height := 0;
      if rank < 2 {
        return true;
      }
      width := dims[0];
      height := dims[1];
      return true;
    }

    /** setInputModelSize: as setVideoSize, on the input size of the mode's properties. */
    method SetInputModelSize(param: Option<string>, rank: int, dims: seq<nat>) returns (ok: bool)
      requires |dims| == RANK_LIMIT
      requires !NoParam(param) ==> bdata.Some?
      modifies this`bdata
      ensures ok
      ensures NoParam(param) ==> bdata == old(bdata)
      ensures !NoParam(param) && rank < 2 ==> bdata == Some(old(bdata).value.(inputWidth := 0, inputHeight := 0))
      ensures !NoParam(param) && rank >= 2 ==>
        bdata == Some(old(bdata).value.(inputWidth := dims[0], inputHeight := dims[1]))
    {
      if NoParam(param) {
        return true;
      }
      bdata := Some(bdata.value.(inputWidth := 0, inputHeight := 0));
      if rank < 2 {
        return true;
      }
      bdata := Some(bdata.value.(inputWidth := dims[0], inputHeight := dims[1]));
      return true;
    }

    /**
     * setOption: dispatches on the option number. Tracking and logging take
     * the number read from the parameter, an unknown option is ignored with
     * success, and each option changes only its own fields.
     */
    method SetOption(option: BoxOption, param: Option<string>, env: OptionEnv) returns (ok: bool)
      requires |env.dims| == RANK_LIMIT
      requires (option == LabelPathOption && mode != MpPalmDetection
                && (if param.Some? then env.loadedLabels else totalLabels) > 0) ==> bdata.Some?
      requires option == InternalOption ==> bdata.Some?
      requires option == InputModelSizeOption && !NoParam(param) ==> bdata.Some?
      modifies this
      ensures mode == old(mode) || option == ModeOption
      ensures (width == old(width) && height == old(height)) || option == VideoSizeOption
      ensures bdata == old(bdata) || option in {ModeOption, LabelPathOption, InputModelSizeOption}
      ensures (labelPath == old(labelPath) && totalLabels == old(totalLabels)) || option == LabelPathOption
      ensures isTrack == (if option == TrackOption then env.number else old(isTrack))
      ensures doLog == (if option == LogOption then env.number else old(doLog))
      ensures flagUseLabel == old(flagUseLabel) && centroids == old(centroids)
      ensures centroidsLastId == old(centroidsLastId) && distanceArray == old(distanceArray)
      ensures option == ModeOption ==>
        ok == (!NoParam(param) && UpdateDecodingMode(param.value) in env.properties)
      ensures option == LabelPathOption ==> ok == (mode == MpPalmDetection || totalLabels > 0)
      ensures option == InternalOption ==> ok == env.internalResult
      ensures option in {VideoSizeOption, InputModelSizeOption, TrackOption, LogOption} ==> ok
      ensures option.OtherOption? ==> ok
    {
      match option
      case ModeOption =>
        ok := SetBoxDecodingMode(param, env.properties);
      case LabelPathOption =>
        ok := SetLabelPath(param, env.loadedLabels);
      case InternalOption =>
        ok := env.internalResult;
      case VideoSizeOption =>
        ok := SetVideoSize(param, env.rank, env.dims);
      case InputModelSizeOption =>
        ok := SetInputModelSize(param, env.rank, env.dims);
      case TrackOption =>
        isTrack := env.number;
        ok := true;
      case LogOption =>
        doLog := env.number;
        ok := true;
      case OtherOption(_) =>
        ok := true;
    }

    // -------------------------------------------------------------------
    // Tracking

    /** The remove loop: drops centroids unmatched for the threshold or longer, keeping the order. */
    method RemoveDisappeared()
      modifies this`centroids
      ensures centroids == Survivors(old(centroids), CONSECUTIVE_DISAPPEAR_THRESHOLD)
    {
      var i := 0;
      while i < |centroids|
        invariant i <= |centroids|
        invariant Survivors(old(centroids), CONSECUTIVE_DISAPPEAR_THRESHOLD)
                  == centroids[..i] + Survivors(centroids[i..], CONSECUTIVE_DISAPPEAR_THRESHOLD)
        decreases |centroids| - i
      {
        assert centroids[i..][1..] == centroids[i + 1..];
        if centroids[i].cdf >= CONSECUTIVE_DISAPPEAR_THRESHOLD {
          var next := centroids[..i] + centroids[i + 1..];
          assert next[..i] == centroids[..i] && next[i..] == centroids[i + 1..];
          centroids := next;
        } else {
          assert centroids[..i + 1] == centroids[..i] + [centroids[i]];
          i := i + 1;
        }
      }
    }

    /** The empty-frame loop: every centroid with a non-zero id counts one more frame. */
    method CountDisappearedFrames()
      modifies this`centroids
      ensures centroids == CountDisappeared(old(centroids))
    {
      ghost var start := centroids;
      for i := 0 to |centroids|
        invariant |centroids| == |start|
        invariant forall k :: 0 <= k < i ==> centroids[k] == CountDisappeared(start)[k]
        invariant forall k :: i <= k < |start| ==> centroids[k] == start[k]
      {
        if centroids[i].id > 0 {
          centroids := centroids[i := centroids[i].(cdf := centroids[i].cdf + 1)];
        }
      }
    }

    /**
     * The registering loops: boxes in order become new centroids with the
     * next ids, and carry those ids; with `onlyUntracked` a box that already
     * carries an id is passed over.
     */
    method RegisterBoxes(boxes: array<DetectedObject>, onlyUntracked: bool)
      modifies this`centroids, this`centroidsLastId, boxes
      ensures TrackState(centroids, centroidsLastId, boxes[..])
        == RegisterPrefix(TrackState(old(centroids), old(centroidsLastId), old(boxes[..])), onlyUntracked, boxes.Length)
    {
      ghost var s := TrackState(centroids, centroidsLastId, boxes[..]);
      for b := 0 to boxes.Length
        invariant TrackState(centroids, centroidsLastId, boxes[..]) == RegisterPrefix(s, onlyUntracked, b)
      {
        if onlyUntracked && boxes[b].trackingId != 0 {
          continue;
        }
        centroidsLastId := centroidsLastId + 1;
        centroids := centroids + [NewCentroid(centroidsLastId, boxes[b], b)];
        boxes[b] := boxes[b].(trackingId := centroidsLastId);
      }
    }

    /**
     * The distance loops: every centroid's match is reset and the table
     * holds, for centroid i and box j, their distance at slot i * boxes + j.
     */
    method BuildDistanceTable(boxes: array<DetectedObject>)
      modifies this`centroids, this`distanceArray
      ensures centroids == ResetMatches(old(centroids))
      ensures distanceArray == DistanceTable(ResetMatches(old(centroids)), boxes[..])
    {
      ghost var start := centroids;
      ghost var table := DistanceTable(ResetMatches(start), boxes[..]);
      var n := |centroids| * boxes.Length;
      if |distanceArray| >= n {
        distanceArray := distanceArray[..n];
      } else {
        distanceArray := distanceArray + seq(n - |distanceArray|, _ => ZeroEntry);
      }
      for i := 0 to |centroids|
        invariant |centroids| == |start| && |distanceArray| == n
        invariant forall k :: 0 <= k < i ==> centroids[k] == ResetMatches(start)[k]
        invariant forall k :: i <= k < |start| ==> centroids[k] == start[k]
        invariant forall k :: 0 <= k < n && k < i * boxes.Length ==> distanceArray[k] == table[k]
      {
        centroids := centroids[i := centroids[i].(matched := None)];
        FillRow(boxes, i, start, table);
      }
      assert distanceArray == table;
    }

    /** One row of the distance loops: the slots of centroid i, box by box. */
    method FillRow(boxes: array<DetectedObject>, i: nat, ghost start: seq<Centroid>, ghost table: seq<DistanceEntry>)
      requires i < |centroids| == |start| && centroids[i] == ResetMatches(start)[i]
      requires table == DistanceTable(ResetMatches(start), boxes[..])
      requires |distanceArray| == |start| * boxes.Length
      requires forall k :: 0 <= k < |distanceArray| && k < i * boxes.Length ==> distanceArray[k] == table[k]
      modifies this`distanceArray
      ensures |distanceArray| == |start| * boxes.Length
      ensures forall k :: 0 <= k < |distanceArray| && k < (i + 1) * boxes.Length ==> distanceArray[k] == table[k]
    {
      var c := centroids[i];
      BoxTracking.MulMonotone(boxes.Length, i + 1, |start|);
      assert (i + 1) * boxes.Length == i * boxes.Length + boxes.Length;
      for j := 0 to boxes.Length
        invariant |distanceArray| == |start| * boxes.Length
        invariant forall k :: 0 <= k < |distanceArray| && k < i * boxes.Length + j ==> distanceArray[k] == table[k]
      {
        DistanceRowsAt(ResetMatches(start), boxes[..], |start|, i, j);
        distanceArray := distanceArray[i * boxes.Length + j := DistanceEntry(i, j, PairDistance(c, boxes[j]))];
      }
    }

    /**
     * The matching loop: over the sorted table, pairs each entry's centroid
     * and box unless the centroid has id 0, the box is taken or the centroid
     * is already matched.
     */
    method MatchGreedily(boxes: array<DetectedObject>, ghost m0: Matching)
      requires m0 == Matching(centroids, boxes[..]) && EntriesFit(distanceArray, m0)
      modifies this`centroids, boxes
      ensures Matching(centroids, boxes[..]) == MatchPrefix(m0, distanceArray, |distanceArray|)
    {
      for d := 0 to |distanceArray|
        invariant Matching(centroids, boxes[..]) == MatchPrefix(m0, distanceArray, d)
      {
        var e := distanceArray[d];
        var c := centroids[e.centroidIdx];
        var box := boxes[e.boxIdx];
        if c.id == 0 {
          continue;
        }
        if box.trackingId != 0 {
          continue;
        }
        if c.matched.Some? {
          continue;
        }
        centroids := centroids[e.centroidIdx := c.(matched := Some(e.boxIdx), cdf := 0)];
        boxes[e.boxIdx] := box.(trackingId := c.id);
      }
    }

    /** The counting loop: a centroid with a non-zero id and no box counts one more frame. */
    method CountUnmatched()
      modifies this`centroids
      ensures centroids == IncrementUnmatched(old(centroids))
    {
      ghost var start := centroids;
      for i := 0 to |centroids|
        invariant |centroids| == |start|
        invariant forall k :: 0 <= k < i ==> centroids[k] == IncrementUnmatched(start)[k]
        invariant forall k :: i <= k < |start| ==> centroids[k] == start[k]
      {
        if centroids[i].id == 0 {
          continue;
        }
        if centroids[i].matched.None? {
          centroids := centroids[i := centroids[i].(cdf := centroids[i].cdf + 1)];
        }
      }
    }

    /**
     * updateCentroids: the tracker's centroids, last id and the frame's
     * boxes become what BoxTracker.UpdateCentroids computes from them; the
     * distance table holds the sorted table when the frame is matched
     * against surviving centroids.
     */
    method UpdateCentroids(boxes: array<DetectedObject>)
      modifies this`centroids, this`centroidsLastId, this`distanceArray, boxes
      ensures TrackState(centroids, centroidsLastId, boxes[..])
        == BoxTracker.UpdateCentroids(TrackState(old(centroids), old(centroidsLastId), old(boxes[..])))
      ensures var cs := Survivors(old(centroids), CONSECUTIVE_DISAPPEAR_THRESHOLD);
        distanceArray == if Tracked(TrackState(old(centroids), old(centroidsLastId), old(boxes[..]))) && cs != []
                         then SortedTable(ResetMatches(cs), old(boxes[..])) else old(distanceArray)
    {
      if boxes.Length > MAX_CENTROIDS_NUM {
        return;
      }
      RemoveDisappeared();
      if |centroids| > MAX_CENTROIDS_NUM {
        return;
      }
      if boxes.Length == 0 {
        CountDisappearedFrames();
        return;
      }
      if |centroids| == 0 {
        RegisterBoxes(boxes, false);
        return;
      }
      MatchAndRegister(boxes);
    }

    /**
     * The tracked branch of updateCentroids: the sorted distance table is
     * walked greedily, unmatched centroids count one more frame, and the
     * boxes left without an id become new centroids.
     */
    method MatchAndRegister(boxes: array<DetectedObject>)
      modifies this`centroids, this`centroidsLastId, this`distanceArray, boxes
      ensures var m := GreedyMatch(old(centroids), old(boxes[..]));
        TrackState(centroids, centroidsLastId, boxes[..])
          == RegisterPrefix(TrackState(IncrementUnmatched(m.centroids), old(centroidsLastId), m.boxes), true, boxes.Length)
      ensures distanceArray == SortedTable(ResetMatches(old(centroids)), old(boxes[..]))
    {
      MatchBoxes(boxes);
      ghost var start := TrackState(centroids, centroidsLastId, boxes[..]);
      RegisterBoxes(boxes, true);
      assert TrackState(centroids, centroidsLastId, boxes[..]) == RegisterPrefix(start, true, boxes.Length);
    }

    /**
     * The matching half of the tracked branch: the distance table is built
     * and sorted, walked greedily, and every centroid left unmatched counts
     * one more frame.
     */
    method MatchBoxes(boxes: array<DetectedObject>)
      modifies this`centroids, this`distanceArray, boxes
      ensures var m := GreedyMatch(old(centroids), old(boxes[..]));
        centroids == IncrementUnmatched(m.centroids) && boxes[..] == m.boxes
      ensures distanceArray == SortedTable(ResetMatches(old(centroids)), old(boxes[..]))
    {
      ghost var cs, bs := centroids, boxes[..];
      BuildDistanceTable(boxes);
      distanceArray := SortByDistance(distanceArray);
      ghost var m0 := WalkStart(cs, bs);
      assert distanceArray == SortedTable(m0.centroids, m0.boxes);
      SortedTableFor(m0.centroids, m0.boxes);
      TableEntriesFit(distanceArray, m0);
      MatchGreedily(boxes, m0);
      ghost var m := GreedyMatch(cs, bs);
      assert Matching(centroids, boxes[..]) == m;
      ghost var matchedBoxes := boxes[..];
      CountUnmatched();
      assert centroids == IncrementUnmatched(m.centroids);
      assert boxes[..] == matchedBoxes;
    }

    // -------------------------------------------------------------------
    // Drawing

    /**
     * draw, axis-aligned boxes: every object not passed over for its class
     * has its outline painted `pixel`, and no other pixel changes.
     */
    method Draw(frame: array<nat>, results: seq<DetectedObject>, pixel: nat)
      requires mode != Yolov8Oriented
      requires bdata.Some? && bdata.value.inputWidth > 0 && bdata.value.inputHeight > 0
      requires frame.Length == width * height
      requires forall o :: o in results && !SkipObject(o, flagUseLabel, totalLabels) ==>
        Drawable(o, width, height, bdata.value.inputWidth, bdata.value.inputHeight)
      modifies frame
      ensures forall k :: 0 <= k < frame.Length ==>
        frame[k] == if k in DrawnPixels(results, flagUseLabel, totalLabels, width, height,
                                        bdata.value.inputWidth, bdata.value.inputHeight)
                    then pixel else old(frame[k])
    {
      var iw, ih := bdata.value.inputWidth, bdata.value.inputHeight;
      for i := 0 to |results|
        invariant forall k :: 0 <= k < frame.Length ==>
          frame[k] == if k in DrawnPixels(results[..i], flagUseLabel, totalLabels, width, height, iw, ih)
                      then pixel else old(frame[k])
      {
        var o := results[i];
        assert results[..i + 1][..i] == results[..i];
        if SkipObject(o, flagUseLabel, totalLabels) {
          continue;
        }
        var c := Corners(o, width, height, iw, ih);
        DrawableCornersInFrame(o, width, height, iw, ih);
        DrawBox(frame, width, height, c.0, c.1, c.2, c.3, pixel);
      }
      assert results[..|results|] == results;
    }
  
    /** The memset of decode: every pixel becomes 0 (transparent black). */
    static method ClearFrame(frame: array<nat>)
      modifies frame
      ensures forall k :: 0 <= k < frame.Length ==> frame[k] == 0
    {
      for k := 0 to frame.Length
        invariant forall k' :: 0 <= k' < k ==> frame[k'] == 0
      {
        frame[k] := 0;
      }
    }

    /**
     * decode, once the mode's decoder has produced `results`: labels are in
     * use exactly when a label path is set and labels are loaded; the frame
     * is cleared; with tracking on, the results are tracked first; then the
     * results are drawn.
     */
    method Decode(frame: array<nat>, results: array<DetectedObject>, pixel: nat)
      requires mode != Yolov8Oriented
      requires bdata.Some? && bdata.value.inputWidth > 0 && bdata.value.inputHeight > 0
      requires frame.Length == width * height
      requires forall o :: o in results[..] && !SkipObject(o, labelPath.Some? && totalLabels > 0, totalLabels) ==>
        Drawable(o, width, height, bdata.value.inputWidth, bdata.value.inputHeight)
      modifies this`flagUseLabel, this`centroids, this`centroidsLastId, this`distanceArray, frame, results
      ensures flagUseLabel == (labelPath.Some? && totalLabels > 0)
      ensures isTrack != 0 ==>
        TrackState(centroids, centroidsLastId, results[..])
          == BoxTracker.UpdateCentroids(TrackState(old(centroids), old(centroidsLastId), old(results[..])))
      ensures isTrack == 0 ==>
        centroids == old(centroids) && centroidsLastId == old(centroidsLastId)
        && distanceArray == old(distanceArray) && results[..] == old(results[..])
      ensures forall k :: 0 <= k < frame.Length ==>
        frame[k] == if k in DrawnPixels(results[..], flagUseLabel, totalLabels, width, height,
                                        bdata.value.inputWidth, bdata.value.inputHeight)
                    then pixel else 0
    {
      flagUseLabel := labelPath.Some? && totalLabels > 0;
      ClearFrame(frame);
      Track(results);
      Draw(frame, results[..], pixel);
    }

    /** With tracking on, the results are tracked; every result drawable before still is. */
    method Track(results: array<DetectedObject>)
      requires bdata.Some? && bdata.value.inputWidth > 0 && bdata.value.inputHeight > 0
      requires forall o :: o in results[..] && !SkipObject(o, flagUseLabel, totalLabels) ==>
        Drawable(o, width, height, bdata.value.inputWidth, bdata.value.inputHeight)
      modifies this`centroids, this`centroidsLastId, this`distanceArray, results
      ensures isTrack != 0 ==>
        TrackState(centroids, centroidsLastId, results[..])
          == BoxTracker.UpdateCentroids(TrackState(old(centroids), old(centroidsLastId), old(results[..])))
      ensures isTrack == 0 ==>
        centroids == old(centroids) && centroidsLastId == old(centroidsLastId)
        && distanceArray == old(distanceArray) && results[..] == old(results[..])
      ensures forall o :: o in results[..] && !SkipObject(o, flagUseLabel, totalLabels) ==>
        Drawable(o, width, height, bdata.value.inputWidth, bdata.value.inputHeight)
    {
      if isTrack != 0 {
        ghost var before := results[..];
        UpdateCentroids(results);
        UpdateBoxesOnlyGainIds(TrackState(old(centroids), old(centroidsLastId), before));
        TrackingKeepsDrawable(before, results[..], flagUseLabel, totalLabels, width, height,
                              bdata.value.inputWidth, bdata.value.inputHeight);
      }
    }
  }
}
