/**
 * Pure helpers of the bounding-box decoder: the deprecated mode-name
 * mapping and the input tensor check.
 */
module BoxOptions {
  import opened TensorTypes

  /** The mode names of bb_modes, in table order. */
  const ModeNames: seq<string> := [
    "mobilenet-ssd", "mobilenet-ssd-postprocess", "ov-person-detection",
    "ov-face-detection", "tflite-ssd", "tf-ssd", "yolov5", "mp-palm-detection",
    "yolov8", "yolov8-obb"]

  /** updateDecodingMode: replaces the two deprecated names by their current ones. */
  function UpdateDecodingMode(param: string): (name: string)
    ensures param == "tflite-ssd" ==> name == "mobilenet-ssd"
    ensures param == "tf-ssd" ==> name == "mobilenet-ssd-postprocess"
    ensures param != "tflite-ssd" && param != "tf-ssd" ==> name == param
    ensures param in ModeNames ==> name in ModeNames
  {
    if param == ModeNames[4] then ModeNames[0]
    else if param == ModeNames[5] then ModeNames[1]
    else param
  }

  /** The mapping never yields a deprecated name, so applying it twice changes nothing. */
  lemma {:induction false} UpdateDecodingModeIdempotent(param: string)
    ensures UpdateDecodingMode(param) != "tflite-ssd" && UpdateDecodingMode(param) != "tf-ssd"
    ensures UpdateDecodingMode(UpdateDecodingMode(param)) == UpdateDecodingMode(param)
  {
    assert "mobilenet-ssd"[0] != "tflite-ssd"[0];
    assert |"mobilenet-ssd-postprocess"| != |"tflite-ssd"|;
    assert |"mobilenet-ssd-postprocess"| != |"tf-ssd"|;
    assert |"mobilenet-ssd"| != |"tf-ssd"|;
  }

  /**
   * check_tensors: at least `limit` tensors (more is accepted with a
   * warning), all of the first tensor's element type.
   */
  method CheckTensors(info: TensorsInfo, limit: nat) returns (ok: bool)
    ensures ok <==> (|info.infos| >= limit &&
      forall i :: 0 <= i < |info.infos| ==> info.infos[i].ttype == info.infos[0].ttype)
  {
    var n := |info.infos|;
    if n < limit {
      return false;
    }
    if n > 0 {
      var base := info.infos[0].ttype;
      for i := 1 to n
        invariant forall k :: 0 <= k < i ==> info.infos[k].ttype == base
      {
        if info.infos[i].ttype != base {
          return false;
        }
      }
    }
    return true;
  }
}
